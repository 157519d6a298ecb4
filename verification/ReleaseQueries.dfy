/** The scans over the release list: the latest release with a status, the latest of a version,
    and the stable version a rollback falls back to. */
module ReleaseQueries {
  import opened Options
  import opened ReleaseState

  datatype Query =
    | WithStatus(key: AgentKey, status: Status)
    | WithVersion(key: AgentKey, version: Version)
    | StableOtherThan(key: AgentKey, version: Version)

  predicate Matches(q: Query, r: Release) {
    r.Of(q.key) &&
    match q
    case WithStatus(_, status) => r.status == status
    case WithVersion(_, version) => r.version == version
    case StableOtherThan(_, version) => r.version != version && r.status == Stable
  }

  /** The first of the matching releases with the greatest time. */
  function Latest(listing: seq<Release>, q: Query): Option<Release> {
    if listing == [] then None
    else
      var before := Latest(listing[..|listing| - 1], q);
      var r := listing[|listing| - 1];
      if Matches(q, r) && (before.None? || before.value.id == "" || r.At() > before.value.At()) then Some(r) else before
  }

  /** The fallback scan's version and time after the list; a zero time is always replaced. */
  function Fallback(listing: seq<Release>, q: Query): (Version, nat) {
    if listing == [] then ("", 0)
    else
      var before := Fallback(listing[..|listing| - 1], q);
      var r := listing[|listing| - 1];
      if Matches(q, r) && (before.1 == 0 || r.At() > before.1) then (r.version, r.At()) else before
  }

  method LatestRelease(listing: seq<Release>, q: Query) returns (selected: Option<Release>)
    ensures selected == Latest(listing, q)
  {
    selected := None;
    var selectedAt := 0;
    for i := 0 to |listing|
      invariant selected == Latest(listing[..i], q)
      invariant selected.Some? ==> selectedAt == selected.value.At()
    {
      var r := listing[i];
      assert listing[..i + 1][..i] == listing[..i];
      if Matches(q, r) {
        if selected.None? || selected.value.id == "" || r.At() > selectedAt {
          selected, selectedAt := Some(r), r.At();
        }
      }
    }
    assert listing[..|listing|] == listing;
  }

  method FallbackStableVersion(listing: seq<Release>, key: AgentKey, rolledBack: Version)
    returns (fallback: Version, ok: bool)
    ensures fallback == Fallback(listing, StableOtherThan(key, rolledBack)).0 && (ok <==> fallback != "")
  {
    var q := StableOtherThan(key, rolledBack);
    fallback := "";
    var fallbackAt := 0;
    for i := 0 to |listing|
      invariant (fallback, fallbackAt) == Fallback(listing[..i], q)
    {
      var r := listing[i];
      assert listing[..i + 1][..i] == listing[..i];
      if Matches(q, r) {
        if fallbackAt == 0 || r.At() > fallbackAt {
          fallback, fallbackAt := r.version, r.At();
        }
      }
    }
    assert listing[..|listing|] == listing;
    ok := fallback != "";
  }

  predicate Identified(listing: seq<Release>) {
    forall r :: r in listing ==> r.id != ""
  }

  /** `Latest` finds a matching release exactly when there is one, and none is later. */
  lemma {:induction false} LatestIsMaximal(listing: seq<Release>, q: Query)
    requires Identified(listing)
    ensures Latest(listing, q).Some? <==> exists r :: r in listing && Matches(q, r)
    ensures Latest(listing, q).Some? ==>
              var l := Latest(listing, q).value;
              l in listing && Matches(q, l) && forall r :: r in listing && Matches(q, r) ==> r.At() <= l.At()
  {
    if listing != [] {
      var init, last := listing[..|listing| - 1], listing[|listing| - 1];
      assert listing == init + [last];
      LatestIsMaximal(init, q);
    }
  }

  /** The fallback scan succeeds exactly when another stable version exists, and no other stable
      version is later than the one it picks. */
  lemma {:induction false} FallbackIsLatest(listing: seq<Release>, key: AgentKey, rolledBack: Version)
    requires forall r :: r in listing ==> r.version != ""
    ensures var q := StableOtherThan(key, rolledBack);
            var f := Fallback(listing, q);
            && (f.0 != "" <==> exists r :: r in listing && Matches(q, r))
            && (f.0 != "" ==> exists r :: r in listing && Matches(q, r) && r.version == f.0 && r.At() == f.1)
            && (forall r :: r in listing && Matches(q, r) ==> r.At() <= f.1)
            && (f.0 == "" ==> f.1 == 0)
  {
    var q := StableOtherThan(key, rolledBack);
    if listing != [] {
      var init, last := listing[..|listing| - 1], listing[|listing| - 1];
      assert listing == init + [last];
      FallbackIsLatest(init, key, rolledBack);
      var before := Fallback(init, q);
      if Matches(q, last) && (before.1 == 0 || last.At() > before.1) {
        assert last in listing && Matches(q, last);
      } else if before.0 != "" {
        var r :| r in init && Matches(q, r) && r.version == before.0 && r.At() == before.1;
        assert r in listing;
      }
    }
  }
}
