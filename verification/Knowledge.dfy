/** The knowledge service: bases and documents, who may see which document, and the ranked local search
    over them. */
module Knowledge {
  import opened Options
  import opened Sorting
  import opened Text
  import Scoring
  import Snippet

  const SNIPPET_RUNES := 220
  const MAX_RESULTS := 10
  const READY := "ready"
  const DISABLED := "disabled"

  /** `documents` is the number of documents the base says it has. */
  datatype Base = Base(tenant: string, owner: string, visibility: string, indexType: string, searchMode: string,
                       status: string, documents: nat, indexedAt: Option<int>, updatedAt: int)

  /** A zero `createdAt` means none. */
  datatype Document = Document(id: string, base: string, tenant: string, group: string, title: string, content: string,
                               uri: string, visibility: string, indexStatus: string, indexedAt: Option<int>,
                               createdAt: int)

  /** The record of a completed ingestion. */
  datatype Job = Job(tenant: string, base: string, document: string, group: string, indexType: string, mode: string,
                     at: int)

  datatype Result = Result(document: string, base: string, group: string, title: string, snippet: string, score: nat,
                           uri: string, visibility: string, mode: string, redacted: bool, redaction: string)

  /** A search: an empty list of bases means every base, an empty source group every group. */
  datatype Query = Query(tenant: string, requester: string, source: string, text: string, bases: seq<string>,
                         limit: int, crossGroup: bool, mode: string)

  /** `Refused` is the permission check's answer, `Invalid` a missing tenant or query. */
  datatype Answer = Found(results: seq<Result>) | Invalid | Refused

  type Bases = map<string, Base>

  // ----- which documents a search looks at ----------------------------------

  function GroupOf(base: Base, doc: Document): string { FirstNonEmpty(doc.group, base.owner) }

  function VisibilityOf(base: Base, doc: Document): string { FirstNonEmpty(doc.visibility, base.visibility) }

  predicate Visible(base: Base, doc: Document, q: Query) {
    var visibility, group := VisibilityOf(base, doc), GroupOf(base, doc);
    if q.source != "" && group != q.source then false
    else if group == q.requester || base.owner == q.requester then true
    else visibility == "tenant" || ((visibility == "shared" || visibility == "shared_groups") && q.crossGroup)
  }

  predicate Eligible(bases: Bases, doc: Document, q: Query) {
    && doc.tenant == q.tenant
    && (q.bases == [] || doc.base in q.bases)
    && doc.base in bases && Visible(bases[doc.base], doc, q)
    && bases[doc.base].status != DISABLED
    && (doc.indexStatus == "" || doc.indexStatus == READY)
  }

  function Candidates(bases: Bases, docs: seq<Document>, q: Query): seq<Document> {
    if docs == [] then []
    else
      Candidates(bases, docs[..|docs| - 1], q)
      + if Eligible(bases, docs[|docs| - 1], q) then [docs[|docs| - 1]] else []
  }

  // ----- search mode --------------------------------------------------------

  function NormalMode(value: string, lower: char -> char): string {
    var mode := Lower(TrimSpace(value), lower);
    if mode == Scoring.MODE_EMBEDDING || mode == Scoring.MODE_HYBRID then mode else Scoring.MODE_BM25
  }

  function BaseMode(base: Base, lower: char -> char): string {
    FirstNonEmpty(base.searchMode, NormalMode(base.indexType, lower))
  }

  /** The mode of the first document's base. */
  function DominantMode(bases: Bases, docs: seq<Document>, lower: char -> char): string {
    if docs == [] then Scoring.MODE_BM25
    else if docs[0].base in bases then BaseMode(bases[docs[0].base], lower)
    else DominantMode(bases, docs[1..], lower)
  }

  function ModeOf(bases: Bases, docs: seq<Document>, q: Query, lower: char -> char): string {
    NormalMode(FirstNonEmpty(q.mode, FirstNonEmpty(DominantMode(bases, docs, lower), Scoring.MODE_BM25)), lower)
  }

  // ----- ranking ------------------------------------------------------------

  /** What a document contributes to the ranking. */
  function Hits(bases: Bases, text: string, mode: string, doc: Document, lower: char -> char): seq<Result> {
    if doc.base !in bases then []
    else
      var score := Scoring.Score(Scoring.Terms(text, lower), mode, doc.title, doc.content, lower);
      if score == 0 then [] else [HitFor(bases[doc.base], text, mode, doc, score, lower)]
  }

  function HitFor(base: Base, text: string, mode: string, doc: Document, score: nat, lower: char -> char): Result {
    Result(doc.id, doc.base, doc.group, doc.title, Snippet.Excerpt(doc.content, text, SNIPPET_RUNES, lower), score,
           doc.uri, VisibilityOf(base, doc), mode, false, "")
  }

  function AllHits(bases: Bases, text: string, mode: string, docs: seq<Document>, lower: char -> char): seq<Result> {
    if docs == [] then []
    else AllHits(bases, text, mode, docs[..|docs| - 1], lower) + Hits(bases, text, mode, docs[|docs| - 1], lower)
  }

  predicate Before(a: Result, b: Result) {
    if a.score == b.score then Less(a.document, b.document) else a.score > b.score
  }

  function Take<T>(s: seq<T>, limit: nat): seq<T> {
    if limit > 0 && |s| > limit then s[..limit] else s
  }

  function Limit(limit: int): (n: nat)
    ensures 0 < n <= MAX_RESULTS
  {
    if limit <= 0 || limit > MAX_RESULTS then MAX_RESULTS else limit
  }

  function Ranked(bases: Bases, text: string, mode: string, docs: seq<Document>, lower: char -> char): seq<Result> {
    Sort(AllHits(bases, text, mode, docs, lower), Before)
  }

  function RankedFor(bases: Bases, docs: seq<Document>, q: Query, lower: char -> char): seq<Result> {
    var candidates := Candidates(bases, docs, q);
    Ranked(bases, q.text, ModeOf(bases, candidates, q, lower), candidates, lower)
  }

  /** The answer for the documents in the order they were listed. */
  function Search(bases: Bases, docs: seq<Document>, q: Query, permitted: bool, lower: char -> char): Answer {
    if q.tenant == "" || TrimSpace(q.text) == "" then Invalid
    else if !permitted then Refused
    else
      Found(Take(RankedFor(bases, docs, q, lower), Limit(q.limit)))
  }

  // ----- the search loops ---------------------------------------------------

  method LocalSearch(bases: Bases, text: string, mode: string, limit: nat, docs: seq<Document>, lower: char -> char)
    returns (results: seq<Result>)
    ensures results == Take(Ranked(bases, text, mode, docs, lower), limit)
  {
    var terms := Scoring.Tokenize(text, lower);
    results := [];
    for i := 0 to |docs|
      invariant results == AllHits(bases, text, mode, docs[..i], lower)
    {
      assert docs[..i + 1][..i] == docs[..i];
      var doc := docs[i];
      if doc.base !in bases {
        continue;
      }
      var score := Scoring.ScoreDocument(terms, mode, doc.title, doc.content, lower);
      if score == 0 {
        continue;
      }
      results := results + [HitFor(bases[doc.base], text, mode, doc, score, lower)];
    }
    assert docs[..|docs|] == docs;
    results := Sort(results, Before);
    if limit > 0 && |results| > limit {
      results := results[..limit];
    }
  }

  method FirstMode(bases: Bases, docs: seq<Document>, lower: char -> char) returns (mode: string)
    ensures mode == DominantMode(bases, docs, lower)
  {
    for i := 0 to |docs|
      invariant DominantMode(bases, docs[i..], lower) == DominantMode(bases, docs, lower)
    {
      assert docs[i..][1..] == docs[i + 1..];
      if docs[i].base in bases {
        return BaseMode(bases[docs[i].base], lower);
      }
    }
    return Scoring.MODE_BM25;
  }

  method Filter(bases: Bases, docs: seq<Document>, q: Query) returns (candidates: seq<Document>)
    ensures candidates == Candidates(bases, docs, q)
  {
    var allowed := set id | id in q.bases;
    assert allowed == {} <==> q.bases == [] by {
      if q.bases != [] { assert q.bases[0] in allowed; }
    }
    candidates := [];
    for i := 0 to |docs|
      invariant candidates == Candidates(bases, docs[..i], q)
    {
      assert docs[..i + 1][..i] == docs[..i];
      var doc := docs[i];
      if doc.tenant != q.tenant {
        continue;
      }
      if allowed != {} && doc.base !in allowed {
        continue;
      }
      if doc.base !in bases || !Visible(bases[doc.base], doc, q) {
        continue;
      }
      if bases[doc.base].status == DISABLED {
        continue;
      }
      if doc.indexStatus != "" && doc.indexStatus != READY {
        continue;
      }
      candidates := candidates + [doc];
    }
    assert docs[..|docs|] == docs;
  }

  // ----- what a search returns ----------------------------------------------

  lemma BeforeIsWeakOrder()
    ensures WeakOrder(Before)
  {
    LessIsStrictTotalOrder();
  }

  lemma {:induction false} CandidatesAreEligible(bases: Bases, docs: seq<Document>, q: Query)
    ensures forall d :: d in Candidates(bases, docs, q) <==> d in docs && Eligible(bases, d, q)
  {
    if docs != [] {
      var init, last := docs[..|docs| - 1], docs[|docs| - 1];
      CandidatesAreEligible(bases, init, q);
      assert docs == init + [last];
    }
  }

  lemma {:induction false} HitsOfDocuments(bases: Bases, text: string, mode: string, docs: seq<Document>,
                                           lower: char -> char)
    ensures forall r :: r in AllHits(bases, text, mode, docs, lower)
                   <==> exists d :: d in docs && Hits(bases, text, mode, d, lower) == [r]
  {
    if docs != [] {
      var init, last := docs[..|docs| - 1], docs[|docs| - 1];
      HitsOfDocuments(bases, text, mode, init, lower);
      assert docs == init + [last];
      forall r ensures r in AllHits(bases, text, mode, docs, lower)
                  <==> exists d :: d in docs && Hits(bases, text, mode, d, lower) == [r]
      {
        var hits := Hits(bases, text, mode, last, lower);
        assert |hits| <= 1 && (r in hits ==> hits == [r]);
        assert last in docs && forall d :: d in docs <==> d in init || d == last;
      }
    }
  }

  /** The result shown for a document of this search, if it scores. */
  predicate Earns(bases: Bases, docs: seq<Document>, d: Document, q: Query, lower: char -> char, r: Result) {
    && d in docs && Eligible(bases, d, q)
    && Hits(bases, q.text, ModeOf(bases, Candidates(bases, docs, q), q, lower), d, lower) == [r]
  }

  lemma RankedIsEarned(bases: Bases, docs: seq<Document>, q: Query, lower: char -> char)
    ensures var candidates := Candidates(bases, docs, q);
            var all := Ranked(bases, q.text, ModeOf(bases, candidates, q, lower), candidates, lower);
            Sorted(all, Before) && forall r :: r in all <==> exists d :: Earns(bases, docs, d, q, lower, r)
  {
    var candidates := Candidates(bases, docs, q);
    var mode := ModeOf(bases, candidates, q, lower);
    var hits := AllHits(bases, q.text, mode, candidates, lower);
    BeforeIsWeakOrder();
    SortSorted(hits, Before);
    SortElements(hits, Before);
    CandidatesAreEligible(bases, docs, q);
    HitsOfDocuments(bases, q.text, mode, candidates, lower);
    forall r ensures r in hits <==> exists d :: Earns(bases, docs, d, q, lower, r) {
      if r in hits {
        var d :| d in candidates && Hits(bases, q.text, mode, d, lower) == [r];
        assert Earns(bases, docs, d, q, lower, r);
      }
      if d :| Earns(bases, docs, d, q, lower, r) {
        assert d in candidates;
      }
    }
  }

  lemma TakeIsTop(all: seq<Result>, limit: nat, r: Result)
    requires limit > 0 && Sorted(all, Before) && r in all && r !in Take(all, limit)
    ensures |Take(all, limit)| == limit && forall s :: s in Take(all, limit) ==> !Before(r, s)
  {
    var shown := Take(all, limit);
    var j :| 0 <= j < |all| && all[j] == r;
    assert forall i :: 0 <= i < |shown| ==> shown[i] in shown && shown[i] == all[i];
  }

  lemma TakeIsSorted(all: seq<Result>, limit: nat)
    requires limit > 0 && Sorted(all, Before)
    ensures Sorted(Take(all, limit), Before) && |Take(all, limit)| <= limit
            && forall r :: r in Take(all, limit) ==> r in all
  {
  }

  /** The search returns at most its limit of results, each earned by an eligible document, best first; a
      document is left out only when the limit is reached and no result shown ranks after it. */
  lemma SearchIsTopK(bases: Bases, docs: seq<Document>, q: Query, lower: char -> char)
    requires Search(bases, docs, q, true, lower).Found?
    ensures var shown := Search(bases, docs, q, true, lower).results;
            && |shown| <= Limit(q.limit)
            && Sorted(shown, Before)
            && (forall r :: r in shown ==> exists d :: Earns(bases, docs, d, q, lower, r))
            && (forall d, r :: Earns(bases, docs, d, q, lower, r) && r !in shown ==>
                  |shown| == Limit(q.limit) && forall s :: s in shown ==> !Before(r, s))
  {
    var candidates := Candidates(bases, docs, q);
    var all := Ranked(bases, q.text, ModeOf(bases, candidates, q, lower), candidates, lower);
    RankedIsEarned(bases, docs, q, lower);
    forall d, r | Earns(bases, docs, d, q, lower, r) && r !in Take(all, Limit(q.limit))
      ensures |Take(all, Limit(q.limit))| == Limit(q.limit)
              && forall s :: s in Take(all, Limit(q.limit)) ==> !Before(r, s)
    {
      TakeIsTop(all, Limit(q.limit), r);
    }
    TakeIsSorted(all, Limit(q.limit));
  }

  /** A smaller limit gives a prefix; limits that are not positive or too large count as the largest. */
  lemma SmallerLimitIsPrefix(bases: Bases, docs: seq<Document>, q: Query, smaller: int, lower: char -> char)
    requires Limit(smaller) <= Limit(q.limit) && Search(bases, docs, q, true, lower).Found?
    ensures Search(bases, docs, q.(limit := smaller), true, lower).Found?
    ensures Search(bases, docs, q.(limit := smaller), true, lower).results
            == Take(Search(bases, docs, q, true, lower).results, Limit(smaller))
  {
    SameCandidates(bases, docs, q.(limit := smaller), q);
    TakeTwice(RankedFor(bases, docs, q, lower), Limit(q.limit), Limit(smaller));
  }

  lemma TakeTwice<T>(all: seq<T>, more: nat, fewer: nat)
    requires 0 < fewer <= more
    ensures Take(Take(all, more), fewer) == Take(all, fewer)
  {
  }

  lemma {:induction false} SameCandidates(bases: Bases, docs: seq<Document>, p: Query, q: Query)
    requires p == q.(limit := p.limit)
    ensures Candidates(bases, docs, p) == Candidates(bases, docs, q)
  {
    if docs != [] { SameCandidates(bases, docs[..|docs| - 1], p, q); }
  }

  // ----- who finds what, said of documents and bases ------------------------

  /** The document may be found: it is of the tenant, in a base asked for that is not disabled, indexed, of the
      source group if one is named, and the requester's own, in the requester's base, for the whole tenant, or
      shared and asked for across groups.  A document without group or visibility has those of its base. */
  predicate MayBeFound(bases: Bases, d: Document, q: Query) {
    && d.tenant == q.tenant && (q.bases == [] || d.base in q.bases) && d.base in bases
    && var b := bases[d.base];
       var group, level := if d.group == "" then b.owner else d.group, LevelOf(b, d);
       && b.status != "disabled" && (d.indexStatus == "" || d.indexStatus == "ready")
       && (q.source == "" || group == q.source)
       && (group == q.requester || b.owner == q.requester || level == "tenant"
          || (q.crossGroup && (level == "shared" || level == "shared_groups")))
  }

  function LevelOf(b: Base, d: Document): string { if d.visibility == "" then b.visibility else d.visibility }

  lemma EligibleIff(bases: Bases, d: Document, q: Query)
    ensures Eligible(bases, d, q) <==> MayBeFound(bases, d, q)
  {
  }

  /** The result says of the document what a search in this mode shows. */
  predicate Shows(b: Base, d: Document, q: Query, mode: string, lower: char -> char, r: Result) {
    && r.document == d.id && r.base == d.base && r.group == d.group && r.title == d.title && r.uri == d.uri
    && r.visibility == LevelOf(b, d) && r.mode == mode && !r.redacted && r.redaction == ""
    && r.snippet == Snippet.Excerpt(d.content, q.text, 220, lower)
    && r.score == Scoring.Score(Scoring.Terms(q.text, lower), mode, d.title, d.content, lower) && r.score > 0
  }

  predicate Finds(bases: Bases, docs: seq<Document>, d: Document, q: Query, lower: char -> char, r: Result) {
    && d in docs && MayBeFound(bases, d, q)
    && Shows(bases[d.base], d, q, ModeOf(bases, Candidates(bases, docs, q), q, lower), lower, r)
  }

  lemma FindsIsEarns(bases: Bases, docs: seq<Document>, d: Document, q: Query, lower: char -> char, r: Result)
    ensures Finds(bases, docs, d, q, lower, r) <==> Earns(bases, docs, d, q, lower, r)
  {
    EligibleIff(bases, d, q);
  }

  /** A higher score comes first, and of equal scores the smaller id. */
  predicate NotAfter(r: Result, s: Result) {
    r.score > s.score || (r.score == s.score && (r.document == s.document || Less(r.document, s.document)))
  }

  /** Results come by falling score, and those of one score by rising id.  At most ten are shown, or as many as
      were asked for if that is one to ten; whatever is left out scores at most what every result shown does,
      and on a tie its id is not smaller. */
  lemma SearchShowsBest(bases: Bases, docs: seq<Document>, q: Query, lower: char -> char)
    requires Search(bases, docs, q, true, lower).Found?
    ensures var shown := Search(bases, docs, q, true, lower).results;
            var most := if 1 <= q.limit <= 10 then q.limit else 10;
            && |shown| <= most
            && (forall i, j :: 0 <= i < j < |shown| ==> NotAfter(shown[i], shown[j]))
            && (forall r :: r in shown ==> exists d :: Finds(bases, docs, d, q, lower, r))
            && (forall d, r :: Finds(bases, docs, d, q, lower, r) && r !in shown ==>
                  |shown| == most && forall s :: s in shown ==> NotAfter(s, r))
  {
    SearchIsTopK(bases, docs, q, lower);
    LessIsStrictTotalOrder();
    forall d, r ensures Finds(bases, docs, d, q, lower, r) <==> Earns(bases, docs, d, q, lower, r) {
      FindsIsEarns(bases, docs, d, q, lower, r);
    }
    forall r: Result, s: Result | !Before(s, r) ensures NotAfter(r, s) {
    }
  }

  /** A search without tenant or text is refused as invalid, any other that is not permitted as such. */
  lemma SearchAnswers(bases: Bases, docs: seq<Document>, q: Query, permitted: bool, lower: char -> char)
    ensures var answer := Search(bases, docs, q, permitted, lower);
            && (answer == Invalid <==> q.tenant == "" || TrimSpace(q.text) == "")
            && (answer == Refused <==> q.tenant != "" && TrimSpace(q.text) != "" && !permitted)
  {
  }

  /** Lower-casing leaves the names of the modes alone. */
  predicate KeepsModes(lower: char -> char) {
    Lower("embedding", lower) == "embedding" && Lower("hybrid", lower) == "hybrid"
  }

  /** The mode is the one the query names, else that of the first document's base, else of its kind of index;
      whatever does not name one of the other two is "bm25". */
  lemma ModeIs(bases: Bases, docs: seq<Document>, q: Query, lower: char -> char)
    requires KeepsModes(lower) && forall d :: d in docs ==> d.base in bases
    ensures var named :=
              if q.mode != "" then q.mode
              else if docs == [] then "bm25"
              else if bases[docs[0].base].searchMode != "" then bases[docs[0].base].searchMode
              else bases[docs[0].base].indexType;
            var mode := Lower(TrimSpace(named), lower);
            ModeOf(bases, docs, q, lower) == if mode == "embedding" || mode == "hybrid" then mode else "bm25"
  {
    Trimmed("embedding");
    Trimmed("hybrid");
    Trimmed("bm25");
    assert |Lower("bm25", lower)| == 4;
    if docs != [] { assert docs[0] in docs; }
  }

  // ----- independence of the order of documents -----------------------------

  ghost predicate DistinctIds(docs: seq<Document>) {
    forall i, j :: 0 <= i < j < |docs| ==> docs[i].id != docs[j].id
  }

  lemma {:induction false} HitsDoNotRepeat(bases: Bases, text: string, mode: string, docs: seq<Document>,
                                           lower: char -> char)
    requires DistinctIds(docs)
    ensures NoRepeats(AllHits(bases, text, mode, docs, lower))
    ensures forall r, s :: r in AllHits(bases, text, mode, docs, lower) &&
              s in AllHits(bases, text, mode, docs, lower) && r != s
              ==> r.document != s.document
  {
    HitsOfDocuments(bases, text, mode, docs, lower);
    if docs != [] {
      var init, last := docs[..|docs| - 1], docs[|docs| - 1];
      HitsDoNotRepeat(bases, text, mode, init, lower);
      HitsOfDocuments(bases, text, mode, init, lower);
      var before, hits := AllHits(bases, text, mode, init, lower), Hits(bases, text, mode, last, lower);
      if hits != [] {
        forall r | r in before ensures r.document != hits[0].document {
          var d :| d in init && Hits(bases, text, mode, d, lower) == [r];
        }
        AppendNoRepeats(before, hits[0]);
      }
    }
  }

  lemma {:induction false} CandidatesKeepDistinctIds(bases: Bases, docs: seq<Document>, q: Query)
    requires DistinctIds(docs)
    ensures DistinctIds(Candidates(bases, docs, q))
  {
    if docs != [] {
      var init, last := docs[..|docs| - 1], docs[|docs| - 1];
      CandidatesKeepDistinctIds(bases, init, q);
      CandidatesAreEligible(bases, init, q);
      forall d | d in Candidates(bases, init, q) ensures d.id != last.id {
        var i :| 0 <= i < |init| && init[i] == d;
        assert docs[i] == d;
      }
    }
  }

  /** For documents with distinct ids and the same search mode, the answer does not depend on the order
      in which the documents are listed. */
  lemma SearchForgetsOrder(bases: Bases, docs: seq<Document>, docs': seq<Document>, q: Query, permitted: bool,
                           lower: char -> char)
    requires DistinctIds(docs) && DistinctIds(docs') && forall d :: d in docs <==> d in docs'
    requires ModeOf(bases, Candidates(bases, docs, q), q, lower) == ModeOf(bases, Candidates(bases, docs', q), q, lower)
    ensures Search(bases, docs, q, permitted, lower) == Search(bases, docs', q, permitted, lower)
  {
    var c, c' := Candidates(bases, docs, q), Candidates(bases, docs', q);
    var mode := ModeOf(bases, c, q, lower);
    var hits, hits' := AllHits(bases, q.text, mode, c, lower), AllHits(bases, q.text, mode, c', lower);
    CandidatesKeepDistinctIds(bases, docs, q);
    CandidatesKeepDistinctIds(bases, docs', q);
    CandidatesAreEligible(bases, docs, q);
    CandidatesAreEligible(bases, docs', q);
    SameDocumentsSameRanking(bases, q.text, mode, c, c', lower);
  }

  lemma SameDocumentsSameRanking(bases: Bases, text: string, mode: string, c: seq<Document>, c': seq<Document>,
                                 lower: char -> char)
    requires DistinctIds(c) && DistinctIds(c') && forall d :: d in c <==> d in c'
    ensures Ranked(bases, text, mode, c, lower) == Ranked(bases, text, mode, c', lower)
  {
    var hits, hits' := AllHits(bases, text, mode, c, lower), AllHits(bases, text, mode, c', lower);
    HitsOfDocuments(bases, text, mode, c, lower);
    HitsOfDocuments(bases, text, mode, c', lower);
    HitsDoNotRepeat(bases, text, mode, c, lower);
    HitsDoNotRepeat(bases, text, mode, c', lower);
    assert forall r :: r in hits <==> r in hits';
    SameSetSameMultiset(hits, hits');
    BeforeIsWeakOrder();
    LessIsStrictTotalOrder();
    assert Tieless(hits, Before);
    SortForgetsOrder(hits, hits', Before);
  }

  /** All documents would choose the same mode. */
  predicate OneMode(bases: Bases, docs: seq<Document>, lower: char -> char) {
    forall d, e :: d in docs && e in docs && d.base in bases && e.base in bases ==>
      NormalMode(BaseMode(bases[d.base], lower), lower) == NormalMode(BaseMode(bases[e.base], lower), lower)
  }

  ghost predicate ModeForgetsOrder(bases: Bases, docs: seq<Document>, q: Query, lower: char -> char) {
    forall docs' :: multiset(docs') == multiset(docs) ==>
      ModeOf(bases, docs', q, lower) == ModeOf(bases, docs, q, lower)
  }

  lemma ModeOfFirst(bases: Bases, docs: seq<Document>, q: Query, lower: char -> char)
    requires q.mode == "" && docs != [] && docs[0].base in bases
    ensures ModeOf(bases, docs, q, lower) == NormalMode(BaseMode(bases[docs[0].base], lower), lower)
  {
  }

  lemma OneModeForgetsOrder(bases: Bases, docs: seq<Document>, q: Query, lower: char -> char)
    requires q.mode == "" && (forall d :: d in docs ==> d.base in bases) && OneMode(bases, docs, lower)
    ensures ModeForgetsOrder(bases, docs, q, lower)
  {
    forall docs' | multiset(docs') == multiset(docs)
      ensures ModeOf(bases, docs', q, lower) == ModeOf(bases, docs, q, lower)
    {
      SameElements(docs', docs);
      if docs != [] {
        assert docs[0] in docs && docs'[0] in docs;
        ModeOfFirst(bases, docs, q, lower);
        ModeOfFirst(bases, docs', q, lower);
      }
    }
  }

  /** The search mode is free of the order of the candidates exactly when the query names it or all
      candidates' bases agree on it. */
  lemma ModeForgetsOrderIff(bases: Bases, docs: seq<Document>, q: Query, lower: char -> char)
    requires forall d :: d in docs ==> d.base in bases
    ensures ModeForgetsOrder(bases, docs, q, lower) <==> q.mode != "" || OneMode(bases, docs, lower)
  {
    if q.mode == "" {
      if OneMode(bases, docs, lower) {
        OneModeForgetsOrder(bases, docs, q, lower);
      } else {
        var d, e :| d in docs && e in docs
          && NormalMode(BaseMode(bases[d.base], lower), lower) != NormalMode(BaseMode(bases[e.base], lower), lower);
        var first, second := ToFront(docs, d), ToFront(docs, e);
        ModeOfFirst(bases, first, q, lower);
        ModeOfFirst(bases, second, q, lower);
      }
    }
  }

  ghost function ToFront(docs: seq<Document>, d: Document): (r: seq<Document>)
    requires d in docs
    ensures r != [] && r[0] == d && multiset(r) == multiset(docs)
  {
    var i :| 0 <= i < |docs| && docs[i] == d;
    assert docs == docs[..i] + ([d] + docs[i + 1..]);
    [d] + (docs[..i] + docs[i + 1..])
  }

  // ----- the store ----------------------------------------------------------

  datatype State = State(bases: Bases, documents: map<string, Document>, jobs: map<string, Job>)

  const EMPTY := State(map[], map[], map[])

  datatype Command =
    | CreateBase(tenant: string, group: string, name: string, visibility: string, indexType: string, permitted: bool,
                 newID: string, now: int)
    | Ingest(doc: Document, newID: string, jobID: string, now: int)

  function Create(s: State, c: Command, lower: char -> char): Option<State>
    requires c.CreateBase?
  {
    if c.tenant == "" || c.group == "" || c.name == "" || !c.permitted then None
    else
      var index := NormalMode(c.indexType, lower);
      var base := Base(c.tenant, c.group, FirstNonEmpty(c.visibility, "group"), index, NormalMode(index, lower),
        READY, 0, None, c.now);
      Some(s.(bases := s.bases[c.newID := base]))
  }

  function Ingested(base: Base, doc: Document, id: string, now: int): Document {
    doc.(id := id, group := GroupOf(base, doc), visibility := VisibilityOf(base, doc), indexStatus := READY,
         indexedAt := Some(now), createdAt := if doc.createdAt == 0 then now else doc.createdAt)
  }

  /** The documents of a tenant in a base. */
  function Within(documents: map<string, Document>, tenant: string, base: string): set<string> {
    set id | id in documents && documents[id].tenant == tenant && documents[id].base == base
  }

  /** The document goes under its id, whatever was there; its base is refreshed and counts the documents of
      the document's tenant; a job records it. */
  function IngestInto(s: State, c: Command, lower: char -> char): Option<State>
    requires c.Ingest?
  {
    var doc := c.doc;
    if doc.tenant == "" || doc.base == "" || doc.content == "" || doc.base !in s.bases then None
    else
      var id, base := FirstNonEmpty(doc.id, c.newID), s.bases[doc.base];
      var stored := Ingested(base, doc, id, c.now);
      var documents := s.documents[id := stored];
      var refreshed := base.(searchMode := BaseMode(base, lower), status := READY,
        documents := |Within(documents, doc.tenant, doc.base)|,
                             indexedAt := Some(c.now), updatedAt := c.now);
      var job := Job(doc.tenant, doc.base, id, stored.group, base.indexType, NormalMode(base.indexType, lower), c.now);
      Some(State(s.bases[doc.base := refreshed], documents, s.jobs[c.jobID := job]))
  }

  function Apply(s: State, c: Command, lower: char -> char): State {
    if c.CreateBase? then Create(s, c, lower).GetOr(s) else IngestInto(s, c, lower).GetOr(s)
  }

  function Run(s: State, commands: seq<Command>, lower: char -> char): State {
    if commands == [] then s else Apply(Run(s, commands[..|commands| - 1], lower), commands[|commands| - 1], lower)
  }

  /** Documents are kept under their own id, ready, in a base the service knows, and belong to a group. */
  predicate Sound(s: State) {
    && (forall b :: b in s.bases ==> s.bases[b].owner != "" && s.bases[b].status == READY)
    && (forall id :: id in s.documents ==>
          var d := s.documents[id];
          d.id == id && d.base in s.bases && d.group != "" && d.indexStatus == READY && d.tenant != "")
  }

  lemma {:induction false} RunKeepsSound(s: State, commands: seq<Command>, lower: char -> char)
    requires Sound(s)
    ensures Sound(Run(s, commands, lower))
  {
    if commands != [] { RunKeepsSound(s, commands[..|commands| - 1], lower); }
  }

  /** What creating a base stores. */
  lemma CreateIs(s: State, c: Command, lower: char -> char)
    requires c.CreateBase?
    ensures var r := Create(s, c, lower);
            && (r.Some? <==> c.tenant != "" && c.group != "" && c.name != "" && c.permitted)
            && (r.Some? ==>
                  && r.value.documents == s.documents && r.value.jobs == s.jobs && c.newID in r.value.bases
                  && r.value.bases == s.bases[c.newID := r.value.bases[c.newID]]
                  && var b := r.value.bases[c.newID];
                     && b.tenant == c.tenant && b.owner == c.group && b.status == "ready" && b.documents == 0
                     && b.visibility == (if c.visibility == "" then "group" else c.visibility)
                     && b.indexType == NormalMode(c.indexType, lower) && b.searchMode == NormalMode(b.indexType, lower)
                     && b.updatedAt == c.now && b.indexedAt == None)
  {
  }

  /** What an ingestion stores of the document: group and visibility of its base where it has none. */
  function Completed(b: Base, doc: Document, newID: string, now: int): Document {
    doc.(id := if doc.id == "" then newID else doc.id, group := if doc.group == "" then b.owner else doc.group,
         visibility := LevelOf(b, doc), indexStatus := "ready", indexedAt := Some(now),
         createdAt := if doc.createdAt == 0 then now else doc.createdAt)
  }

  /** What it makes of the base: the new count, ready, with its mode and times. */
  function Refreshed(b: Base, count: nat, now: int, lower: char -> char): Base {
    b.(documents := count, status := "ready", indexedAt := Some(now), updatedAt := now,
       searchMode := if b.searchMode == "" then NormalMode(b.indexType, lower) else b.searchMode)
  }

  lemma IngestIs(s: State, c: Command, lower: char -> char)
    requires c.Ingest?
    ensures var r, doc := IngestInto(s, c, lower), c.doc;
            && (r.Some? <==> doc.tenant != "" && doc.content != "" && doc.base != "" && doc.base in s.bases)
            && (r.Some? ==>
                  var b, t := s.bases[doc.base], r.value;
                  var stored := Completed(b, doc, c.newID, c.now);
                  && t.documents == s.documents[stored.id := stored]
                  && t.bases == s.bases[doc.base :=
                     Refreshed(b, |Within(t.documents, doc.tenant, doc.base)|, c.now, lower)]
                  && t.jobs == s.jobs[c.jobID :=
                     Job(doc.tenant, doc.base, stored.id, stored.group, b.indexType, NormalMode(b.indexType, lower),
                         c.now)])
  {
  }

  // ----- document counts ----------------------------------------------------

  /** Every base says how many documents of its tenant it holds. */
  predicate CountsExact(s: State) {
    forall b :: b in s.bases ==> CountIsExact(s.bases[b], s.documents, b)
  }

  predicate CountIsExact(base: Base, documents: map<string, Document>, b: string) {
    base.documents == |Within(documents, base.tenant, b)|
  }

  /** The document replaces one that another base counts. */
  predicate Moves(s: State, id: string, base: string) {
    && id in s.documents && s.documents[id].base != base && s.documents[id].base in s.bases
    && s.documents[id].tenant == s.bases[s.documents[id].base].tenant
  }

  lemma OtherBaseCount(documents: map<string, Document>, id: string, doc: Document, tenant: string, base: string)
    requires doc.base != base
    ensures |Within(documents[id := doc], tenant, base)|
            == |Within(documents, tenant, base)| - if id in Within(documents, tenant, base) then 1 else 0
  {
    assert Within(documents[id := doc], tenant, base) == Within(documents, tenant, base) - {id};
  }

  lemma OwnBaseCount(documents: map<string, Document>, id: string, doc: Document, tenant: string)
    ensures |Within(documents[id := doc], tenant, doc.base)|
            == |Within(documents, tenant, doc.base) - {id}| + if tenant == doc.tenant then 1 else 0
  {
    var kept := Within(documents, tenant, doc.base) - {id};
    assert Within(documents[id := doc], tenant, doc.base) == if tenant == doc.tenant then kept + {id} else kept;
  }

  /** The base is of another tenant than the document, and does not happen to hold one document of its own
      tenant for each of the document's tenant, the new one among them. */
  predicate Miscounts(s: State, id: string, doc: Document)
    requires doc.base in s.bases
  {
    var own := s.bases[doc.base].tenant;
    own != doc.tenant &&
    |Within(s.documents, doc.tenant, doc.base) - {id}| + 1 != |Within(s.documents, own, doc.base) - {id}|
  }

  /** The other bases keep their counts exactly when the document does not move. */
  lemma OthersStayExactIff(s: State, id: string, doc: Document)
    requires Sound(s) && CountsExact(s)
    ensures (forall b :: b in s.bases && b != doc.base ==> CountIsExact(s.bases[b], s.documents[id := doc], b))
            <==> !Moves(s, id, doc.base)
  {
    forall b | b in s.bases && b != doc.base
      ensures CountIsExact(s.bases[b], s.documents[id := doc], b)
              <==> id !in Within(s.documents, s.bases[b].tenant, b)
    {
      assert CountIsExact(s.bases[b], s.documents, b);
      OtherBaseCount(s.documents, id, doc, s.bases[b].tenant, b);
    }
  }

  /** The base ingested into has an exact count exactly when it counts its own documents. */
  lemma OwnStaysExactIff(s: State, id: string, doc: Document, base: Base)
    requires doc.base in s.bases && base.tenant == s.bases[doc.base].tenant
    requires base.documents == |Within(s.documents[id := doc], doc.tenant, doc.base)|
    ensures CountIsExact(base, s.documents[id := doc], doc.base) <==> !Miscounts(s, id, doc)
  {
    OwnBaseCount(s.documents, id, doc, doc.tenant);
    OwnBaseCount(s.documents, id, doc, base.tenant);
  }

  /** An ingestion keeps the counts exact exactly when it does not move a document out of another base that
      counts it, and does not count the documents of another tenant in place of the base's own. */
  lemma CountsStayExactIff(s: State, c: Command, lower: char -> char)
    requires Sound(s) && CountsExact(s) && c.Ingest? && IngestInto(s, c, lower).Some?
    ensures var id := FirstNonEmpty(c.doc.id, c.newID);
            CountsExact(IngestInto(s, c, lower).value) <==> !Moves(s, id, c.doc.base) && !Miscounts(s, id, c.doc)
  {
    var s', doc, id := IngestInto(s, c, lower).value, c.doc, FirstNonEmpty(c.doc.id, c.newID);
    ExactAfter(s, s', id, Ingested(s.bases[doc.base], doc, id, c.now), s'.bases[doc.base]);
  }

  lemma ExactAfter(s: State, s': State, id: string, doc: Document, base: Base)
    requires Sound(s) && CountsExact(s) && doc.base in s.bases && base.tenant == s.bases[doc.base].tenant
    requires s'.bases == s.bases[doc.base := base] && s'.documents == s.documents[id := doc]
    requires base.documents == |Within(s'.documents, doc.tenant, doc.base)|
    ensures CountsExact(s') <==> !Moves(s, id, doc.base) && !Miscounts(s, id, doc)
  {
    OthersStayExactIff(s, id, doc);
    OwnStaysExactIff(s, id, doc, base);
    ExactByBase(s, s', doc.base, base);
  }

  lemma ExactByBase(s: State, s': State, b: string, base: Base)
    requires s'.bases == s.bases[b := base]
    ensures CountsExact(s')
            <==> && CountIsExact(base, s'.documents, b)
                 && forall o :: o in s.bases && o != b ==> CountIsExact(s.bases[o], s'.documents, o)
  {
    forall o | o in s.bases && o != b ensures o in s'.bases && s'.bases[o] == s.bases[o] {
    }
    assert b in s'.bases && s'.bases[b] == base;
  }

  function NewBase(id: string): Command { CreateBase("t", "g", "n", "", "", true, id, 1) }

  /** Document "d" of a tenant goes into a base. */
  function IngestIn(tenant: string, base: string): Command {
    Ingest(Document("d", base, tenant, "", "title", "content", "", "", "", None, 0), "", "j", 1)
  }

  /** The base those commands create. */
  function CreatedBase(lower: char -> char): Base {
    var index := NormalMode("", lower);
    Base("t", "g", "group", index, NormalMode(index, lower), READY, 0, None, 1)
  }

  lemma RunLast(s: State, commands: seq<Command>, c: Command, lower: char -> char)
    ensures Run(s, commands + [c], lower) == Apply(Run(s, commands, lower), c, lower)
  {
    assert (commands + [c])[..|commands|] == commands;
  }

  lemma OneBase(lower: char -> char)
    ensures Run(EMPTY, [NewBase("a")], lower) == EMPTY.(bases := map["a" := CreatedBase(lower)])
  {
    RunLast(EMPTY, [], NewBase("a"), lower);
    assert [] + [NewBase("a")] == [NewBase("a")];
  }

  lemma TwoBases(lower: char -> char)
    ensures Run(EMPTY, [NewBase("a"), NewBase("b")], lower)
            == EMPTY.(bases := map["a" := CreatedBase(lower), "b" := CreatedBase(lower)])
  {
    OneBase(lower);
    RunLast(EMPTY, [NewBase("a")], NewBase("b"), lower);
    assert [NewBase("a")] + [NewBase("b")] == [NewBase("a"), NewBase("b")];
  }

  lemma NoDocumentsAreExact(bases: Bases, lower: char -> char)
    requires forall b :: b in bases ==> bases[b] == CreatedBase(lower)
    ensures var s := EMPTY.(bases := bases);
            Sound(s) && CountsExact(s)
  {
    forall b | b in bases ensures |Within(map[], bases[b].tenant, b)| == 0 {
      assert Within(map[], bases[b].tenant, b) == {};
    }
  }

  lemma FirstIngestCounts(s: State, lower: char -> char)
    requires Sound(s) && CountsExact(s) && s.documents == map[] && "a" in s.bases && s.bases["a"].tenant == "t"
    ensures var s' := Apply(s, IngestIn("t", "a"), lower);
            && Sound(s') && CountsExact(s') && s'.bases.Keys == s.bases.Keys && s'.bases["a"].tenant == "t"
            && "d" in s'.documents && s'.documents["d"].base == "a" && s'.documents["d"].tenant == "t"
  {
    CountsStayExactIff(s, IngestIn("t", "a"), lower);
  }

  lemma SecondIngestLosesCount(s: State, lower: char -> char)
    requires Sound(s) && CountsExact(s) && {"a", "b"} <= s.bases.Keys && s.bases["a"].tenant == "t"
    requires "d" in s.documents && s.documents["d"].base == "a" && s.documents["d"].tenant == "t"
    ensures !CountsExact(Apply(s, IngestIn("t", "b"), lower))
  {
    CountsStayExactIff(s, IngestIn("t", "b"), lower);
  }

  /** Ingesting one document into two bases, one after the other, leaves the first with a count too many. */
  lemma MovingLosesCount(lower: char -> char)
    ensures !CountsExact(Run(EMPTY, [NewBase("a"), NewBase("b")] + [IngestIn("t", "a")] + [IngestIn("t", "b")],
                             lower))
  {
    TwoBases(lower);
    NoDocumentsAreExact(map["a" := CreatedBase(lower), "b" := CreatedBase(lower)], lower);
    IngestedTwice([NewBase("a"), NewBase("b")], lower);
  }

  lemma IngestedTwice(commands: seq<Command>, lower: char -> char)
    requires var s := Run(EMPTY, commands, lower);
             Sound(s) && CountsExact(s) && s.documents == map[] && {"a", "b"} <= s.bases.Keys
               && s.bases["a"].tenant == "t"
    ensures !CountsExact(Run(EMPTY, commands + [IngestIn("t", "a")] + [IngestIn("t", "b")], lower))
  {
    RunLast(EMPTY, commands, IngestIn("t", "a"), lower);
    RunLast(EMPTY, commands + [IngestIn("t", "a")], IngestIn("t", "b"), lower);
    FirstIngestCounts(Run(EMPTY, commands, lower), lower);
    SecondIngestLosesCount(Run(EMPTY, commands + [IngestIn("t", "a")], lower), lower);
  }

  /** A document of another tenant is counted by the base it goes into. */
  lemma OtherTenantMiscounts(s: State, lower: char -> char)
    requires Sound(s) && CountsExact(s) && s.documents == map[] && "a" in s.bases && s.bases["a"].tenant == "t"
    ensures !CountsExact(Apply(s, IngestIn("u", "a"), lower))
  {
    assert Within(s.documents, "t", "a") == {};
    CountsStayExactIff(s, IngestIn("u", "a"), lower);
  }

  /** From the empty store: a base of one tenant, then a document of another in it. */
  lemma OtherTenantLosesCount(lower: char -> char)
    ensures !CountsExact(Run(EMPTY, [NewBase("a")] + [IngestIn("u", "a")], lower))
  {
    OneBase(lower);
    NoDocumentsAreExact(map["a" := CreatedBase(lower)], lower);
    RunLast(EMPTY, [NewBase("a")], IngestIn("u", "a"), lower);
    OtherTenantMiscounts(Run(EMPTY, [NewBase("a")], lower), lower);
  }

  /** `visit` goes through the ids of the stored documents once each. */
  ghost predicate Visits(visit: seq<string>, documents: map<string, Document>) {
    NoRepeats(visit) && forall id :: id in visit <==> id in documents
  }

  function Listed(documents: map<string, Document>, visit: seq<string>): seq<Document>
    requires forall id :: id in visit ==> id in documents
  {
    seq(|visit|, i requires 0 <= i < |visit| => documents[visit[i]])
  }

  lemma ListedIsStored(s: State, visit: seq<string>)
    requires Sound(s) && Visits(visit, s.documents)
    ensures DistinctIds(Listed(s.documents, visit))
    ensures forall d :: d in Listed(s.documents, visit) <==> d.id in s.documents && s.documents[d.id] == d
  {
    var docs := Listed(s.documents, visit);
    forall d ensures d in docs <==> d.id in s.documents && s.documents[d.id] == d {
      if d in docs {
        var i :| 0 <= i < |docs| && docs[i] == d;
        assert visit[i] in s.documents;
      }
      if d.id in s.documents && s.documents[d.id] == d {
        assert d.id in visit;
        var i :| 0 <= i < |visit| && visit[i] == d.id;
        assert docs[i] == d;
      }
    }
    forall i, j | 0 <= i < j < |docs| ensures docs[i].id != docs[j].id {
      assert visit[i] in s.documents && visit[j] in s.documents;
    }
  }

  /** In every store the service can reach, a search restricted to a source group reports that group, and
      each result comes from the stored document it names. */
  lemma ReachedResultsNameTheirDocument(commands: seq<Command>, visit: seq<string>, q: Query, lower: char -> char,
                                        r: Result)
    requires var s := Run(EMPTY, commands, lower);
             Visits(visit, s.documents) && Search(s.bases, Listed(s.documents, visit), q, true, lower).Found?
             && r in Search(s.bases, Listed(s.documents, visit), q, true, lower).results
    ensures var s := Run(EMPTY, commands, lower);
            && r.document in s.documents
            && Eligible(s.bases, s.documents[r.document], q)
            && r.base == s.documents[r.document].base
            && (q.source != "" ==> r.group == q.source)
  {
    var s := Run(EMPTY, commands, lower);
    RunKeepsSound(EMPTY, commands, lower);
    var docs := Listed(s.documents, visit);
    SearchIsTopK(s.bases, docs, q, lower);
    ListedIsStored(s, visit);
    var d :| Earns(s.bases, docs, d, q, lower, r);
  }

  ghost predicate SearchedIn(s: State, visit: seq<string>, q: Query, permitted: bool, lower: char -> char,
                             answer: Answer) {
    Visits(visit, s.documents) && answer == Search(s.bases, Listed(s.documents, visit), q, permitted, lower)
  }

  lemma VisitedMore(within: set<string>, todo: set<string>, id: string)
    requires id in todo
    ensures |within - (todo - {id})| == |within - todo| + if id in within then 1 else 0
  {
    assert within - (todo - {id}) == (within - todo) + if id in within then {id} else {};
  }

  class InMemoryService {
    var bases: Bases
    var documents: map<string, Document>
    var jobs: map<string, Job>
    const lower: char -> char

    constructor (lower: char -> char)
      ensures View() == EMPTY && this.lower == lower
    {
      this.lower := lower;
      bases, documents, jobs := map[], map[], map[];
    }

    ghost function View(): State
      reads this
    {
      State(bases, documents, jobs)
    }

    method CreateKnowledgeBase(c: Command) returns (ok: bool)
      requires c.CreateBase?
      modifies this
      ensures View() == Apply(old(View()), c, lower) && (ok <==> Create(old(View()), c, lower).Some?)
    {
      if c.tenant == "" || c.group == "" || c.name == "" {
        return false;
      }
      if !c.permitted {
        return false;
      }
      var visibility := FirstNonEmpty(c.visibility, "group");
      var indexType := NormalMode(c.indexType, lower);
      var mode := NormalMode(indexType, lower);
      bases := bases[c.newID := Base(c.tenant, c.group, visibility, indexType, mode, READY, 0, None, c.now)];
      return true;
    }

    /** The documents of a tenant in a base, visited in any order. */
    method DocumentCount(tenant: string, base: string) returns (count: nat)
      ensures count == |Within(documents, tenant, base)|
    {
      count := 0;
      ghost var within := Within(documents, tenant, base);
      var todo := documents.Keys;
      assert within - todo == {};
      while todo != {}
        invariant todo <= documents.Keys
        invariant count == |within - todo|
        decreases todo
      {
        var id :| id in todo;
        VisitedMore(within, todo, id);
        if documents[id].tenant == tenant && documents[id].base == base {
          count := count + 1;
        }
        todo := todo - {id};
      }
      assert within - {} == within;
    }

    method IngestDocument(c: Command) returns (ok: bool)
      requires c.Ingest?
      modifies this
      ensures View() == Apply(old(View()), c, lower)
      ensures ok <==> IngestInto(old(View()), c, lower).Some?
    {
      var doc := c.doc;
      if doc.tenant == "" || doc.base == "" || doc.content == "" {
        return false;
      }
      if doc.id == "" {
        doc := doc.(id := c.newID);
      }
      if doc.createdAt == 0 {
        doc := doc.(createdAt := c.now);
      }
      if doc.base !in bases {
        return false;
      }
      var base := bases[doc.base];
      if doc.group == "" {
        doc := doc.(group := base.owner);
      }
      if doc.visibility == "" {
        doc := doc.(visibility := base.visibility);
      }
      doc := doc.(indexStatus := READY, indexedAt := Some(c.now));
      documents := documents[doc.id := doc];
      var count := DocumentCount(doc.tenant, doc.base);
      base := base.(documents := count);
      if base.searchMode == "" {
        base := base.(searchMode := NormalMode(base.indexType, lower));
      }
      base := base.(status := READY, indexedAt := Some(c.now), updatedAt := c.now);
      bases := bases[doc.base := base];
      jobs := jobs[c.jobID := Job(doc.tenant, doc.base, doc.id, doc.group, base.indexType,
        NormalMode(base.indexType, lower), c.now)];
      return true;
    }

    /** The answer is the one for the order in which the map of documents happened to be visited. */
    method SearchDocuments(q: Query, permitted: bool) returns (answer: Answer)
      ensures exists visit :: SearchedIn(View(), visit, q, permitted, lower, answer)
    {
      if q.tenant == "" || TrimSpace(q.text) == "" {
        ghost var unused := Enumerate(documents.Keys);
        assert SearchedIn(View(), unused, q, permitted, lower, Invalid);
        return Invalid;
      }
      if !permitted {
        ghost var unused := Enumerate(documents.Keys);
        assert SearchedIn(View(), unused, q, permitted, lower, Refused);
        return Refused;
      }
      var docs := [];
      ghost var visit := [];
      var todo := documents.Keys;
      while todo != {}
        invariant todo <= documents.Keys && NoRepeats(visit)
                  && forall id :: id in visit <==> id in documents && id !in todo
        invariant docs == Listed(documents, visit)
        decreases todo
      {
        var id :| id in todo;
        AppendNoRepeats(visit, id);
        docs := docs + [documents[id]];
        visit := visit + [id];
        todo := todo - {id};
      }
      var candidates := Filter(bases, docs, q);
      var mode := FirstMode(bases, candidates, lower);
      mode := NormalMode(FirstNonEmpty(q.mode, FirstNonEmpty(mode, Scoring.MODE_BM25)), lower);
      var results := LocalSearch(bases, q.text, mode, Limit(q.limit), candidates, lower);
      assert SearchedIn(View(), visit, q, permitted, lower, Found(results));
      return Found(results);
    }
  }
}
