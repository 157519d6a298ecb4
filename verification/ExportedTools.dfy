/** Keeping the tool catalog in step with the tools a draft exports: tools that left the draft are
    disabled, the others written anew, one manifest at a time. */
module ExportedTools {
  import opened Options
  import opened Text

  const ENABLED := "enabled"
  const DISABLED := "disabled"

  /** `details` stands for schemas, group, risk level, visibility and version. */
  datatype Manifest = Manifest(tenant: string, tool: string, name: string, description: string, provider: string,
                               operation: string, status: string, details: string)

  datatype Tool = Tool(id: string, name: string, description: string, operation: string, status: string,
                       details: string)

  /** What may go wrong when a manifest is written: it is refused, or the registry fails afterwards. */
  datatype Fault = NoFault | RefusedBefore | FailedAfter

  datatype Outcome = Outcome(catalog: Catalog, ok: bool)

  type Catalog = map<string, Manifest>

  // ----- the catalog --------------------------------------------------------

  function Normal(m: Manifest): Manifest {
    m.(tool := TrimSpace(m.tool), name := TrimSpace(m.name), description := TrimSpace(m.description),
       provider := TrimSpace(m.provider), operation := TrimSpace(m.operation),
         status := FirstNonEmpty(m.status, ENABLED))
  }

  function KeyOf(m: Manifest): string { Join2(m.tenant, m.tool) }

  /** Manifests are kept normalized and under their own key. */
  predicate Sound(c: Catalog) {
    forall k :: k in c ==> NulFree(c[k].tenant) && Normal(c[k]) == c[k] && KeyOf(c[k]) == k
  }

  /** The tenant's own manifest or else the shared one. */
  function Get(c: Catalog, tenant: string, tool: string): Option<Manifest> {
    if Join2(tenant, tool) in c then Some(c[Join2(tenant, tool)])
    else if tenant != "" && Join2("", tool) in c then Some(c[Join2("", tool)])
    else None
  }

  function Upsert(c: Catalog, m: Manifest, fault: Fault): Outcome {
    var n := Normal(m);
    if n.tool == "" || n.name == "" || n.description == "" || fault.RefusedBefore? then Outcome(c, false)
    else Outcome(c[KeyOf(n) := n], fault.NoFault?)
  }

  lemma NormalTwice(m: Manifest)
    ensures Normal(Normal(m)) == Normal(m)
  {
    TrimSpaceIdempotent(m.tool);
    TrimSpaceIdempotent(m.name);
    TrimSpaceIdempotent(m.description);
    TrimSpaceIdempotent(m.provider);
    TrimSpaceIdempotent(m.operation);
  }

  lemma UpsertKeepsSound(c: Catalog, m: Manifest, fault: Fault)
    requires Sound(c) && NulFree(m.tenant)
    ensures Sound(Upsert(c, m, fault).catalog)
  {
    NormalTwice(m);
  }

  /** A key of the catalog is the key of one tenant and one trimmed tool id. */
  lemma KeyIsTrimmed(c: Catalog, tenant: string, tool: string)
    requires Sound(c) && NulFree(tenant) && Join2(tenant, tool) in c
    ensures c[Join2(tenant, tool)].tenant == tenant && c[Join2(tenant, tool)].tool == tool && TrimSpace(tool) == tool
  {
    var m := c[Join2(tenant, tool)];
    Join2Injective(m.tenant, m.tool, tenant, tool);
  }

  // ----- disabling what was removed -----------------------------------------

  predicate Active(tool: Tool) { tool.status != DISABLED }

  /** The ids of the new draft's tools that are not disabled. */
  function Current(tools: seq<Tool>): set<string> {
    set t | t in tools && Active(t) :: t.id
  }

  predicate Removed(tool: Tool, current: set<string>) {
    tool.id != "" && tool.id !in current
  }

  function Disabling(c: Catalog, tenant: string, agent: string, tool: Tool): Manifest {
    var found := Get(c, tenant, tool.id);
    if found.Some? then found.value.(status := DISABLED)
    else Manifest(tenant, tool.id, tool.id, "disabled exported tool", agent, tool.operation, DISABLED, "")
  }

  function DisableOne(c: Catalog, tenant: string, agent: string, tool: Tool, current: set<string>,
                      fault: Fault): Outcome {
    if !Removed(tool, current) then Outcome(c, true) else Upsert(c, Disabling(c, tenant, agent, tool), fault)
  }

  function DisableRemoved(c: Catalog, tenant: string, agent: string, tools: seq<Tool>, current: set<string>,
                          faults: nat -> Fault): Outcome {
    if tools == [] then Outcome(c, true)
    else
      var n := |tools| - 1;
      var before := DisableRemoved(c, tenant, agent, tools[..n], current, faults);
      if before.ok then DisableOne(before.catalog, tenant, agent, tools[n], current, faults(n)) else before
  }

  // ----- writing what is exported -------------------------------------------

  function Exported(tenant: string, agent: string, tool: Tool): Manifest {
    Manifest(tenant, tool.id, tool.name, tool.description, agent, tool.operation, tool.status, tool.details)
  }

  function SyncOne(c: Catalog, tenant: string, agent: string, tool: Tool, fault: Fault): Outcome {
    if Active(tool) then Upsert(c, Exported(tenant, agent, tool), fault) else Outcome(c, true)
  }

  function Sync(c: Catalog, tenant: string, agent: string, tools: seq<Tool>, faults: nat -> Fault): Outcome {
    if tools == [] then Outcome(c, true)
    else
      var n := |tools| - 1;
      var before := Sync(c, tenant, agent, tools[..n], faults);
      if before.ok then SyncOne(before.catalog, tenant, agent, tools[n], faults(n)) else before
  }

  datatype Replacement = Replacement(tenant: string, agent: string, was: seq<Tool>, now: seq<Tool>,
                                     disabling: nat -> Fault, syncing: nat -> Fault)

  /** Replacing the exports `was` by `now`. */
  function Replace(c: Catalog, r: Replacement): Outcome {
    var disabled := DisableRemoved(c, r.tenant, r.agent, r.was, Current(r.now), r.disabling);
    if disabled.ok then Sync(disabled.catalog, r.tenant, r.agent, r.now, r.syncing) else disabled
  }

  lemma DisablingTenant(c: Catalog, tenant: string, agent: string, tool: Tool)
    requires Sound(c) && NulFree(tenant)
    ensures NulFree(Disabling(c, tenant, agent, tool).tenant)
  {
  }

  lemma DisableOneKeepsSound(c: Catalog, tenant: string, agent: string, tool: Tool, current: set<string>, fault: Fault)
    requires Sound(c) && NulFree(tenant)
    ensures Sound(DisableOne(c, tenant, agent, tool, current, fault).catalog)
  {
    DisablingTenant(c, tenant, agent, tool);
    UpsertKeepsSound(c, Disabling(c, tenant, agent, tool), fault);
  }

  lemma {:induction false} DisableKeepsSound(c: Catalog, tenant: string, agent: string, tools: seq<Tool>,
                                             current: set<string>, faults: nat -> Fault)
    requires Sound(c) && NulFree(tenant)
    ensures Sound(DisableRemoved(c, tenant, agent, tools, current, faults).catalog)
  {
    if tools != [] {
      var n := |tools| - 1;
      DisableKeepsSound(c, tenant, agent, tools[..n], current, faults);
      var before := DisableRemoved(c, tenant, agent, tools[..n], current, faults);
      DisableOneKeepsSound(before.catalog, tenant, agent, tools[n], current, faults(n));
    }
  }

  /** The entry that disabling a removed tool writes. */
  function WrittenKey(c: Catalog, tenant: string, tool: Tool): string {
    if Join2(tenant, tool.id) !in c && tenant != "" && Join2("", tool.id) in c then Join2("", tool.id)
    else Join2(tenant, TrimSpace(tool.id))
  }

  lemma NormalDisabled(m: Manifest)
    requires Normal(m) == m
    ensures Normal(m.(status := DISABLED)) == m.(status := DISABLED)
  {
  }

  /** Where the manifest to be written for a removed tool goes. */
  lemma DisablingKey(c: Catalog, tenant: string, agent: string, tool: Tool)
    requires Sound(c) && NulFree(tenant)
    ensures var m, key := Normal(Disabling(c, tenant, agent, tool)), WrittenKey(c, tenant, tool);
            && m.status == DISABLED && KeyOf(m) == key
            && (key != Join2(tenant, TrimSpace(tool.id)) ==> key in c && m == c[key].(status := DISABLED))
  {
    var own, shared := Join2(tenant, tool.id), Join2("", tool.id);
    if own in c {
      KeyIsTrimmed(c, tenant, tool.id);
      NormalDisabled(c[own]);
    } else if tenant != "" && shared in c {
      KeyIsTrimmed(c, "", tool.id);
      NormalDisabled(c[shared]);
    }
  }

  lemma UpsertWritesOne(c: Catalog, m: Manifest, fault: Fault)
    ensures var done := Upsert(c, m, fault);
            done.catalog == c[KeyOf(Normal(m)) := Normal(m)] || (done.catalog == c && !done.ok)
  {
  }

  /** Disabling a removed tool writes at most one entry, a disabled one: a copy of the manifest found. */
  lemma DisableOneWritesOne(c: Catalog, tenant: string, agent: string, tool: Tool, current: set<string>, fault: Fault)
    returns (m: Manifest)
    requires Sound(c) && NulFree(tenant) && Removed(tool, current)
    ensures m.status == DISABLED
    ensures var done, key := DisableOne(c, tenant, agent, tool, current, fault), WrittenKey(c, tenant, tool);
            && (done.catalog == c[key := m] || (done.catalog == c && !done.ok))
            && (key != Join2(tenant, TrimSpace(tool.id)) ==> key in c && m == c[key].(status := DISABLED))
  {
    m := Normal(Disabling(c, tenant, agent, tool));
    DisablingKey(c, tenant, agent, tool);
    UpsertWritesOne(c, Disabling(c, tenant, agent, tool), fault);
  }

  lemma {:induction false} SyncKeepsSound(c: Catalog, tenant: string, agent: string, tools: seq<Tool>,
                                          faults: nat -> Fault)
    requires Sound(c) && NulFree(tenant)
    ensures Sound(Sync(c, tenant, agent, tools, faults).catalog)
  {
    if tools != [] {
      var n := |tools| - 1;
      SyncKeepsSound(c, tenant, agent, tools[..n], faults);
      UpsertKeepsSound(Sync(c, tenant, agent, tools[..n], faults).catalog, Exported(tenant, agent, tools[n]),
        faults(n));
    }
  }

  /** However it ends, a replacement keeps every manifest normalized and under its own key. */
  lemma ReplaceKeepsSound(c: Catalog, r: Replacement)
    requires Sound(c) && NulFree(r.tenant)
    ensures Sound(Replace(c, r).catalog)
  {
    DisableKeepsSound(c, r.tenant, r.agent, r.was, Current(r.now), r.disabling);
    SyncKeepsSound(DisableRemoved(c, r.tenant, r.agent, r.was, Current(r.now), r.disabling).catalog, r.tenant,
      r.agent, r.now, r.syncing);
  }

  // ----- what the tenant sees afterwards ------------------------------------

  /** Looked up by the tenant, the tool is disabled. */
  predicate SeenDisabled(c: Catalog, tenant: string, tool: string) {
    Get(c, tenant, tool).Some? && Get(c, tenant, tool).value.status == DISABLED
  }

  /** Disabling a removed tool makes the tenant see it disabled, whichever manifest is changed. */
  lemma DisableOneDisables(c: Catalog, tenant: string, agent: string, tool: Tool, current: set<string>, fault: Fault)
    requires Sound(c) && NulFree(tenant) && Removed(tool, current)
    requires DisableOne(c, tenant, agent, tool, current, fault).ok
    ensures SeenDisabled(DisableOne(c, tenant, agent, tool, current, fault).catalog, tenant, TrimSpace(tool.id))
  {
    var m := DisableOneWritesOne(c, tenant, agent, tool, current, fault);
    if WrittenKey(c, tenant, tool) != Join2(tenant, TrimSpace(tool.id)) {
      KeyIsTrimmed(c, "", tool.id);
    }
  }

  /** A write that disables never makes another tool seem enabled again. */
  lemma DisableOneKeepsDisabled(c: Catalog, tenant: string, agent: string, tool: Tool, current: set<string>,
                                fault: Fault, x: string)
    requires Sound(c) && NulFree(tenant) && SeenDisabled(c, tenant, x)
    ensures SeenDisabled(DisableOne(c, tenant, agent, tool, current, fault).catalog, tenant, x)
  {
    if Removed(tool, current) {
      var m := DisableOneWritesOne(c, tenant, agent, tool, current, fault);
      SeenAfterWrite(c, tenant, x, WrittenKey(c, tenant, tool), m);
    }
  }

  lemma SeenAfterWrite(c: Catalog, tenant: string, x: string, key: string, m: Manifest)
    requires SeenDisabled(c, tenant, x) && m.status == DISABLED
    ensures SeenDisabled(c[key := m], tenant, x)
  {
  }

  lemma {:induction false} RemovedAreDisabled(c: Catalog, tenant: string, agent: string, tools: seq<Tool>,
                                              current: set<string>, faults: nat -> Fault, i: nat)
    requires Sound(c) && NulFree(tenant) && i < |tools| && Removed(tools[i], current)
    requires DisableRemoved(c, tenant, agent, tools, current, faults).ok
    ensures SeenDisabled(DisableRemoved(c, tenant, agent, tools, current, faults).catalog, tenant,
            TrimSpace(tools[i].id))
  {
    var n := |tools| - 1;
    var before := DisableRemoved(c, tenant, agent, tools[..n], current, faults);
    DisableKeepsSound(c, tenant, agent, tools[..n], current, faults);
    if i == n {
      DisableOneDisables(before.catalog, tenant, agent, tools[n], current, faults(n));
    } else {
      RemovedAreDisabled(c, tenant, agent, tools[..n], current, faults, i);
      DisableOneKeepsDisabled(before.catalog, tenant, agent, tools[n], current, faults(n), TrimSpace(tools[i].id));
    }
  }

  /** The new draft has a tool of this trimmed id that is not disabled. */
  predicate Offers(tools: seq<Tool>, x: string) {
    exists t :: t in tools && Active(t) && TrimSpace(t.id) == x
  }

  lemma OffersNext(tools: seq<Tool>, x: string)
    requires tools != []
    ensures var init, last := tools[..|tools| - 1], tools[|tools| - 1];
            Offers(tools, x) <==> Offers(init, x) || (Active(last) && TrimSpace(last.id) == x)
  {
    var init, last := tools[..|tools| - 1], tools[|tools| - 1];
    assert tools == init + [last];
    assert last in tools && forall t :: t in tools <==> t in init || t == last;
    if Offers(init, x) {
      var t :| t in init && Active(t) && TrimSpace(t.id) == x;
      assert t in tools;
    }
  }

  /** The manifest is what one of the draft's active tools of this id says. */
  predicate Publishes(m: Manifest, tenant: string, agent: string, tools: seq<Tool>, x: string) {
    exists t :: t in tools && Active(t) && TrimSpace(t.id) == x && m == Normal(Exported(tenant, agent, t))
  }

  /** Writing the exports changes exactly the tenant's entries of the active tools. */
  lemma {:induction false} SyncWrites(c: Catalog, tenant: string, agent: string, tools: seq<Tool>, faults: nat -> Fault,
                                      key: string)
    ensures var after := Sync(c, tenant, agent, tools, faults).catalog;
            (forall x :: Offers(tools, x) ==> key != Join2(tenant, x))
              ==> (key in after <==> key in c) && (key in c ==> after[key] == c[key])
  {
    if tools != [] {
      var n := |tools| - 1;
      SyncWrites(c, tenant, agent, tools[..n], faults, key);
      if forall x :: Offers(tools, x) ==> key != Join2(tenant, x) {
        forall x | Offers(tools[..n], x) ensures key != Join2(tenant, x) { OffersNext(tools, x); }
        if Active(tools[n]) { OffersNext(tools, TrimSpace(tools[n].id)); }
      }
    }
  }

  /** Writing one more export keeps what an earlier one published, or publishes it anew. */
  lemma SyncOnePublishes(c: Catalog, tenant: string, agent: string, tool: Tool, fault: Fault, x: string)
    requires SyncOne(c, tenant, agent, tool, fault).ok
    ensures var after := SyncOne(c, tenant, agent, tool, fault).catalog;
            if Active(tool) && TrimSpace(tool.id) == x
            then Join2(tenant, x) in after && after[Join2(tenant, x)] == Normal(Exported(tenant, agent, tool))
            else Join2(tenant, x) in c ==> Join2(tenant, x) in after && after[Join2(tenant, x)] == c[Join2(tenant, x)]
  {
    SameTenantKeys(tenant, TrimSpace(tool.id), x);
  }

  lemma PublishesMore(m: Manifest, tenant: string, agent: string, fewer: seq<Tool>, tools: seq<Tool>, x: string)
    requires Publishes(m, tenant, agent, fewer, x) && forall t :: t in fewer ==> t in tools
    ensures Publishes(m, tenant, agent, tools, x)
  {
    var t :| t in fewer && Active(t) && TrimSpace(t.id) == x && m == Normal(Exported(tenant, agent, t));
    assert t in tools;
  }

  lemma {:induction false} SyncPublishes(c: Catalog, tenant: string, agent: string, tools: seq<Tool>,
                                         faults: nat -> Fault, x: string)
    requires Sync(c, tenant, agent, tools, faults).ok && Offers(tools, x)
    ensures var after := Sync(c, tenant, agent, tools, faults).catalog;
            Join2(tenant, x) in after && Publishes(after[Join2(tenant, x)], tenant, agent, tools, x)
  {
    if tools != [] {
      var n := |tools| - 1;
      OffersNext(tools, x);
      var before := Sync(c, tenant, agent, tools[..n], faults);
      assert Sync(c, tenant, agent, tools, faults) == SyncOne(before.catalog, tenant, agent, tools[n], faults(n));
      SyncOnePublishes(before.catalog, tenant, agent, tools[n], faults(n), x);
      if Active(tools[n]) && TrimSpace(tools[n].id) == x {
        assert tools[n] in tools && Publishes(Normal(Exported(tenant, agent, tools[n])), tenant, agent, tools, x);
      } else {
        SyncPublishes(c, tenant, agent, tools[..n], faults, x);
        PublishesMore(before.catalog[Join2(tenant, x)], tenant, agent, tools[..n], tools, x);
      }
    }
  }

  lemma SameTenantKeys(tenant: string, a: string, b: string)
    ensures Join2(tenant, a) == Join2(tenant, b) <==> a == b
  {
    if Join2(tenant, a) == Join2(tenant, b) {
      assert a == Join2(tenant, a)[|tenant| + 1..] == Join2(tenant, b)[|tenant| + 1..] == b;
    }
  }

  lemma KeyApart(tenant: string, a: string, b: string)
    requires NulFree(tenant) && tenant != ""
    ensures Join2(tenant, a) != Join2("", b)
  {
    if Join2(tenant, a) == Join2("", b) { Join2Injective(tenant, a, "", b); }
  }

  /** After a successful replacement every tool the old draft named is, as the tenant looks it up,
      disabled exactly when the new draft has no active tool of that id; and every active tool of the new
      draft is the tenant's own manifest, saying what the draft says. */
  lemma ReplacedToolsAreSeenRight(c: Catalog, r: Replacement, x: string)
    requires Sound(c) && NulFree(r.tenant) && Replace(c, r).ok
    requires Offers(r.now, x) || exists t :: t in r.was && t.id != "" && TrimSpace(t.id) == x
    ensures Get(Replace(c, r).catalog, r.tenant, x).Some?
    ensures SeenDisabled(Replace(c, r).catalog, r.tenant, x) <==> !Offers(r.now, x)
    ensures Offers(r.now, x) ==> Publishes(Get(Replace(c, r).catalog, r.tenant, x).value, r.tenant, r.agent, r.now, x)
  {
    var middle := DisableRemoved(c, r.tenant, r.agent, r.was, Current(r.now), r.disabling);
    if Offers(r.now, x) {
      SyncPublishes(middle.catalog, r.tenant, r.agent, r.now, r.syncing, x);
    } else {
      var t :| t in r.was && t.id != "" && TrimSpace(t.id) == x;
      var i :| 0 <= i < |r.was| && r.was[i] == t;
      CurrentIsOffered(r.now, t.id);
      RemovedAreDisabled(c, r.tenant, r.agent, r.was, Current(r.now), r.disabling, i);
      SyncLeavesLookup(middle.catalog, r.tenant, r.agent, r.now, r.syncing, x);
    }
  }

  lemma CurrentIsOffered(tools: seq<Tool>, id: string)
    ensures id in Current(tools) ==> Offers(tools, TrimSpace(id))
  {
    if id in Current(tools) {
      var a :| a in tools && Active(a) && a.id == id;
      assert a in tools && Active(a) && TrimSpace(a.id) == TrimSpace(id);
    }
  }

  lemma SyncLeavesLookup(c: Catalog, tenant: string, agent: string, tools: seq<Tool>, faults: nat -> Fault, x: string)
    requires NulFree(tenant) && !Offers(tools, x)
    ensures Get(Sync(c, tenant, agent, tools, faults).catalog, tenant, x) == Get(c, tenant, x)
  {
    forall y | Offers(tools, y) ensures Join2(tenant, x) != Join2(tenant, y) { SameTenantKeys(tenant, x, y); }
    SyncWrites(c, tenant, agent, tools, faults, Join2(tenant, x));
    if tenant != "" {
      forall y | Offers(tools, y) ensures Join2("", x) != Join2(tenant, y) { KeyApart(tenant, y, x); }
      SyncWrites(c, tenant, agent, tools, faults, Join2("", x));
    }
  }

  // ----- the same, said of drafts and manifests -----------------------------

  predicate OffersAs(tools: seq<Tool>, t: Tool, x: string) {
    t in tools && t.status != "disabled" && TrimSpace(t.id) == x
  }

  /** The manifest is the tool, its texts trimmed, provided by the agent, enabled unless it says otherwise. */
  predicate Says(m: Manifest, tenant: string, agent: string, t: Tool) {
    && m.tenant == tenant && m.tool == TrimSpace(t.id) && m.name == TrimSpace(t.name)
    && m.description == TrimSpace(t.description) && m.provider == TrimSpace(agent)
    && m.operation == TrimSpace(t.operation) && m.details == t.details
    && m.status == (if t.status == "" then "enabled" else t.status)
  }

  /** Looked up by the tenant, its own manifest or else the shared one, the tool is disabled. */
  predicate IsOff(c: Catalog, tenant: string, x: string) {
    var own, shared := tenant + "\0" + x, "\0" + x;
    if own in c then c[own].status == "disabled" else shared in c && c[shared].status == "disabled"
  }

  /** After a successful replacement a tool of the new draft that is not disabled has a manifest of the tenant
      saying what such a tool of the draft says; a tool of the old draft without one is off for the tenant. */
  lemma DraftIsSeen(c: Catalog, r: Replacement, x: string)
    requires Sound(c) && NulFree(r.tenant) && Replace(c, r).ok
    requires (exists t :: OffersAs(r.now, t, x)) || exists t :: t in r.was && t.id != "" && TrimSpace(t.id) == x
    ensures var after, own := Replace(c, r).catalog, r.tenant + "\0" + x;
            if exists t :: OffersAs(r.now, t, x) then
              && own in after && after[own].status != "disabled"
              && exists t :: OffersAs(r.now, t, x) && Says(after[own], r.tenant, r.agent, t)
            else IsOff(after, r.tenant, x)
  {
    var after := Replace(c, r).catalog;
    OffersIff(r.now, x);
    ReplacedToolsAreSeenRight(c, r, x);
    if Offers(r.now, x) {
      var middle := DisableRemoved(c, r.tenant, r.agent, r.was, Current(r.now), r.disabling);
      SyncPublishes(middle.catalog, r.tenant, r.agent, r.now, r.syncing, x);
      var m := after[Join2(r.tenant, x)];
      var t :| t in r.now && Active(t) && TrimSpace(t.id) == x && m == Normal(Exported(r.tenant, r.agent, t));
      assert OffersAs(r.now, t, x) && Says(m, r.tenant, r.agent, t);
    } else {
      OffIff(after, r.tenant, x);
    }
  }

  lemma OffersIff(tools: seq<Tool>, x: string)
    ensures Offers(tools, x) <==> exists t :: OffersAs(tools, t, x)
  {
    if t :| OffersAs(tools, t, x) {
      assert t in tools && Active(t) && TrimSpace(t.id) == x;
    }
    if Offers(tools, x) {
      var t :| t in tools && Active(t) && TrimSpace(t.id) == x;
      assert OffersAs(tools, t, x);
    }
  }

  lemma OffIff(c: Catalog, tenant: string, x: string)
    ensures SeenDisabled(c, tenant, x) <==> IsOff(c, tenant, x)
  {
    assert Join2("", x) == "\0" + x;
  }

  /** A write is refused for a blank id, name or description; otherwise the trimmed manifest goes under its
      tenant and id, and a failure afterwards leaves it there. */
  lemma UpsertIs(c: Catalog, m: Manifest, fault: Fault)
    ensures var done := Upsert(c, m, fault);
            var refused := TrimSpace(m.tool) == "" || TrimSpace(m.name) == "" || TrimSpace(m.description) == ""
              || fault == RefusedBefore;
            && (done.ok <==> !refused && fault == NoFault)
            && (refused ==> done.catalog == c)
            && (!refused ==> done.catalog == c[m.tenant + "\0" + TrimSpace(m.tool) := m.(
                  tool := TrimSpace(m.tool), name := TrimSpace(m.name), description := TrimSpace(m.description),
                  provider := TrimSpace(m.provider), operation := TrimSpace(m.operation),
                  status := if m.status == "" then "enabled" else m.status)])
  {
  }

  /** Nothing is written while something that was removed is not disabled. */
  lemma ReplaceStops(c: Catalog, r: Replacement)
    requires !DisableRemoved(c, r.tenant, r.agent, r.was, Current(r.now), r.disabling).ok
    ensures Replace(c, r) == DisableRemoved(c, r.tenant, r.agent, r.was, Current(r.now), r.disabling)
  {
  }

  /** A removed tool without any manifest gets one of its own, disabled. */
  lemma UnknownIsRecordedOff(c: Catalog, tenant: string, agent: string, tool: Tool, current: set<string>)
    requires tool.id !in current && TrimSpace(tool.id) != ""
    requires Join2(tenant, tool.id) !in c && Join2("", tool.id) !in c
    ensures var done := DisableOne(c, tenant, agent, tool, current, NoFault);
            var key := tenant + "\0" + TrimSpace(tool.id);
            done.ok && key in done.catalog && done.catalog == c[key := done.catalog[key]]
            && var m := done.catalog[key];
               && m.tenant == tenant && m.tool == m.name == TrimSpace(tool.id) && m.status == "disabled"
               && m.description == "disabled exported tool" && m.provider == TrimSpace(agent)
               && m.operation == TrimSpace(tool.operation)
  {
    Trimmed("disabled exported tool");
  }

  // ----- what else changes --------------------------------------------------

  lemma DisableOneWrites(c: Catalog, tenant: string, agent: string, tool: Tool, current: set<string>, fault: Fault,
                         key: string)
    requires Sound(c) && NulFree(tenant)
    requires key != Join2(tenant, TrimSpace(tool.id)) && key != Join2("", tool.id)
    ensures var after := DisableOne(c, tenant, agent, tool, current, fault).catalog;
            (key in after <==> key in c) && (key in c ==> after[key] == c[key])
  {
    if Removed(tool, current) { var m := DisableOneWritesOne(c, tenant, agent, tool, current, fault); }
  }

  /** The key belongs to neither the tenant's nor the shared entry of a tool to be disabled. */
  predicate Apart(key: string, tenant: string, tools: seq<Tool>) {
    forall t :: t in tools && t.id != "" ==> key != Join2(tenant, TrimSpace(t.id)) && key != Join2("", t.id)
  }

  lemma {:induction false} DisableWrites(c: Catalog, tenant: string, agent: string, tools: seq<Tool>,
                                         current: set<string>, faults: nat -> Fault, key: string)
    requires Sound(c) && NulFree(tenant) && Apart(key, tenant, tools)
    ensures var after := DisableRemoved(c, tenant, agent, tools, current, faults).catalog;
            (key in after <==> key in c) && (key in c ==> after[key] == c[key])
  {
    if tools != [] {
      var n := |tools| - 1;
      DisableWrites(c, tenant, agent, tools[..n], current, faults, key);
      DisableKeepsSound(c, tenant, agent, tools[..n], current, faults);
      var before := DisableRemoved(c, tenant, agent, tools[..n], current, faults);
      if tools[n].id != "" {
        DisableOneWrites(before.catalog, tenant, agent, tools[n], current, faults(n), key);
      }
    }
  }

  /** However a replacement ends, entries of other tools and of other tenants stay as they were. */
  lemma OtherEntriesStay(c: Catalog, r: Replacement, key: string)
    requires Sound(c) && NulFree(r.tenant)
    requires Apart(key, r.tenant, r.was) && forall x :: Offers(r.now, x) ==> key != Join2(r.tenant, x)
    ensures var after := Replace(c, r).catalog;
            (key in after <==> key in c) && (key in c ==> after[key] == c[key])
  {
    var middle := DisableRemoved(c, r.tenant, r.agent, r.was, Current(r.now), r.disabling);
    DisableWrites(c, r.tenant, r.agent, r.was, Current(r.now), r.disabling, key);
    SyncWrites(middle.catalog, r.tenant, r.agent, r.now, r.syncing, key);
  }

  // ----- the shared entries -------------------------------------------------

  /** How the first removed tool of trimmed id `x` is spelled. */
  function FirstSpelling(tools: seq<Tool>, current: set<string>, x: string): Option<string> {
    if tools == [] then None
    else
      var before, last := FirstSpelling(tools[..|tools| - 1], current, x), tools[|tools| - 1];
      if before.Some? then before
      else if Removed(last, current) && TrimSpace(last.id) == x then Some(last.id)
      else None
  }

  /** The tenant has no manifest of its own for `x`, and the first removed tool that means `x` is spelled so. */
  predicate ReachesShared(c: Catalog, tenant: string, tools: seq<Tool>, current: set<string>, x: string) {
    Join2(tenant, x) !in c && FirstSpelling(tools, current, x) == Some(x)
  }

  /** The shared and the tenant's own entry of an id, at keys `shared` and `own`, after disabling tools of
      which the first meaning that id is spelled `first`. */
  predicate SharedState(after: Catalog, c: Catalog, own: string, shared: string, x: string, first: Option<string>)
    requires shared in c
  {
    && shared in after
    && after[shared] == (if own !in c && first == Some(x) then c[shared].(status := DISABLED) else c[shared])
    && (own in c || (first.Some? && first.value != x) ==> own in after)
    && (first.None? ==> (own in after <==> own in c))
  }

  /** One tool further: `means` says that it is removed and means the id, `spelled` how. */
  lemma SharedStep(before: Catalog, after: Catalog, c: Catalog, own: string, shared: string, x: string,
                   first: Option<string>, means: bool, spelled: string)
    requires shared in c && SharedState(before, c, own, shared, x, first)
    requires shared in after
    requires after[shared]
             == (if means && spelled == x && own !in before then before[shared].(status := DISABLED)
               else before[shared])
    requires own in after <==> own in before || (means && spelled != x)
    ensures SharedState(after, c, own, shared, x, if first.Some? then first else if means then Some(spelled) else None)
  {
  }

  lemma {:induction false} DisableShared(c: Catalog, tenant: string, agent: string, tools: seq<Tool>,
                                         current: set<string>, faults: nat -> Fault, x: string)
    requires Sound(c) && NulFree(tenant) && tenant != "" && Join2("", x) in c
    requires DisableRemoved(c, tenant, agent, tools, current, faults).ok
    ensures SharedState(DisableRemoved(c, tenant, agent, tools, current, faults).catalog, c, Join2(tenant, x),
            Join2("", x), x,
                        FirstSpelling(tools, current, x))
  {
    if tools != [] {
      var n := |tools| - 1;
      DisableShared(c, tenant, agent, tools[..n], current, faults, x);
      DisableKeepsSound(c, tenant, agent, tools[..n], current, faults);
      var before := DisableRemoved(c, tenant, agent, tools[..n], current, faults).catalog;
      var last := DisableOne(before, tenant, agent, tools[n], current, faults(n));
      assert DisableRemoved(c, tenant, agent, tools, current, faults) == last;
      DisableOneShared(before, tenant, agent, tools[n], current, faults(n), x);
      KeyIsTrimmed(c, "", x);
      SharedStep(before, last.catalog, c, Join2(tenant, x), Join2("", x), x, FirstSpelling(tools[..n], current, x),
                 Removed(tools[n], current) && TrimSpace(tools[n].id) == x, tools[n].id);
    }
  }

  /** What one step does to the shared and to the tenant's entry of `x`. */
  lemma DisableOneShared(c: Catalog, tenant: string, agent: string, tool: Tool, current: set<string>, fault: Fault,
                         x: string)
    requires Sound(c) && NulFree(tenant) && tenant != "" && Join2("", x) in c
    requires DisableOne(c, tenant, agent, tool, current, fault).ok
    ensures var after := DisableOne(c, tenant, agent, tool, current, fault).catalog;
            && Join2("", x) in after
            && after[Join2("", x)] == (if Removed(tool, current) && tool.id == x && Join2(tenant, x) !in c
                                       then c[Join2("", x)].(status := DISABLED) else c[Join2("", x)])
            && (Join2(tenant, x) in after
                <==> Join2(tenant, x) in c || (Removed(tool, current) && TrimSpace(tool.id) == x && tool.id != x))
  {
    if Removed(tool, current) {
      var m := DisableOneWritesOne(c, tenant, agent, tool, current, fault);
      KeyIsTrimmed(c, "", x);
      KeyApart(tenant, TrimSpace(tool.id), x);
      KeyApart(tenant, x, tool.id);
      KeyApart(tenant, TrimSpace(tool.id), tool.id);
      SameTenantKeys(tenant, TrimSpace(tool.id), x);
      SameTenantKeys("", tool.id, x);
      SpelledApart(c, tenant, tool, x);
    }
  }

  /** An id spelled with blanks is found in no manifest, so the tenant's own entry is written. */
  lemma SpelledApart(c: Catalog, tenant: string, tool: Tool, x: string)
    requires Sound(c) && NulFree(tenant) && tenant != "" && TrimSpace(x) == x && Join2("", x) in c
    ensures tool.id == x && Join2(tenant, x) !in c ==> WrittenKey(c, tenant, tool) == Join2("", x)
    ensures TrimSpace(tool.id) == x && (tool.id != x || Join2(tenant, x) in c)
            ==> WrittenKey(c, tenant, tool) == Join2(tenant, x)
  {
    if TrimSpace(tool.id) == x && tool.id != x && Join2("", tool.id) in c { KeyIsTrimmed(c, "", tool.id); }
  }

  /** A successful replacement leaves a shared manifest that was not disabled as it was exactly when it is
      not reached: the tenant has its own manifest for the id, or no removed tool is spelled that way first. */
  lemma SharedEntryStaysIff(c: Catalog, r: Replacement, x: string)
    requires Sound(c) && NulFree(r.tenant) && r.tenant != "" && Replace(c, r).ok
    requires Join2("", x) in c && c[Join2("", x)].status != DISABLED
    ensures var after := Replace(c, r).catalog;
            && Join2("", x) in after
            && (after[Join2("", x)] == c[Join2("", x)] <==> !ReachesShared(c, r.tenant, r.was, Current(r.now), x))
            && (after[Join2("", x)] != c[Join2("", x)] ==> after[Join2("", x)] == c[Join2("", x)].(status := DISABLED))
  {
    var middle := DisableRemoved(c, r.tenant, r.agent, r.was, Current(r.now), r.disabling);
    DisableShared(c, r.tenant, r.agent, r.was, Current(r.now), r.disabling, x);
    forall y | Offers(r.now, y) ensures Join2("", x) != Join2(r.tenant, y) { KeyApart(r.tenant, y, x); }
    SyncWrites(middle.catalog, r.tenant, r.agent, r.now, r.syncing, Join2("", x));
  }

  /** Removing a tool that has only a shared manifest disables the shared one. */
  lemma SharedEntryIsLost(c: Catalog, tenant: string, agent: string, tool: Tool)
    requires Sound(c) && NulFree(tenant) && tenant != "" && tool.id != "" && Join2(tenant, tool.id) !in c
    requires Join2("", tool.id) in c && c[Join2("", tool.id)].name != "" && c[Join2("", tool.id)].description != ""
    ensures var shared := Join2("", tool.id);
            Replace(c, Replacement(tenant, agent, [tool], [], _ => NoFault, _ => NoFault))
            == Outcome(c[shared := c[shared].(status := DISABLED)], true)
  {
    var r := Replacement(tenant, agent, [tool], [], _ => NoFault, _ => NoFault);
    KeyIsTrimmed(c, "", tool.id);
    NormalDisabled(c[Join2("", tool.id)]);
    assert Current(r.now) == {} && [tool][..0] == [];
    assert DisableRemoved(c, tenant, agent, [], {}, r.disabling) == Outcome(c, true);
    assert DisableRemoved(c, tenant, agent, [tool], {}, r.disabling) == DisableOne(c, tenant, agent, tool, {}, NoFault);
  }

  /** A catalog in which that happens. */
  lemma SharedEntryIsLostSomewhere() returns (c: Catalog)
    ensures Sound(c) && Join2("acme", "t") !in c && Join2("", "t") in c
    ensures c[Join2("", "t")].status == ENABLED && c[Join2("", "t")].name != "" && c[Join2("", "t")].description != ""
  {
    assert TrimSpace("t") == "t";
    var m := Manifest("", "t", "t", "t", "t", "t", ENABLED, "");
    c := map[Join2("", "t") := m];
    KeyApart("acme", "t", "t");
  }

  // ----- the loops ----------------------------------------------------------

  class ToolCatalog {
    var manifests: Catalog

    constructor ()
      ensures manifests == map[]
    {
      manifests := map[];
    }

    method UpsertManifest(m: Manifest, fault: Fault) returns (ok: bool)
      modifies this
      ensures Outcome(manifests, ok) == Upsert(old(manifests), m, fault)
    {
      var normal := Normal(m);
      if normal.tool == "" || normal.name == "" || normal.description == "" || fault.RefusedBefore? {
        return false;
      }
      manifests := manifests[KeyOf(normal) := normal];
      return fault.NoFault?;
    }

    method DisableRemovedTools(tenant: string, agent: string, was: seq<Tool>, now: seq<Tool>,
                               faults: nat -> Fault) returns (ok: bool)
      modifies this
      ensures Outcome(manifests, ok) == DisableRemoved(old(manifests), tenant, agent, was, Current(now), faults)
    {
      var current: set<string> := {};
      for i := 0 to |now|
        invariant current == Current(now[..i])
        invariant manifests == old(manifests)
      {
        CurrentNext(now[..i], now[i]);
        assert now[..i + 1] == now[..i] + [now[i]];
        if now[i].status != DISABLED {
          current := current + {now[i].id};
        }
      }
      assert now[..|now|] == now;
      for i := 0 to |was|
        invariant Outcome(manifests, true) == DisableRemoved(old(manifests), tenant, agent, was[..i], current, faults)
      {
        DisableNext(old(manifests), tenant, agent, was, current, faults, i);
        var tool := was[i];
        if tool.id == "" {
          continue;
        }
        if tool.id in current {
          continue;
        }
        var m := Manifest(tenant, tool.id, tool.id, "disabled exported tool", agent, tool.operation, DISABLED, "");
        var existing := Get(manifests, tenant, tool.id);
        if existing.Some? {
          m := existing.value.(status := DISABLED);
        }
        ok := UpsertManifest(m, faults(i));
        if !ok {
          DisableStops(old(manifests), tenant, agent, was, current, faults, i + 1);
          return;
        }
      }
      assert was[..|was|] == was;
      ok := true;
    }

    method SyncExportedTools(tenant: string, agent: string, tools: seq<Tool>, faults: nat -> Fault) returns (ok: bool)
      modifies this
      ensures Outcome(manifests, ok) == Sync(old(manifests), tenant, agent, tools, faults)
    {
      for i := 0 to |tools|
        invariant Outcome(manifests, true) == Sync(old(manifests), tenant, agent, tools[..i], faults)
      {
        assert tools[..i + 1][..i] == tools[..i];
        if tools[i].status == DISABLED {
          continue;
        }
        ok := UpsertManifest(Exported(tenant, agent, tools[i]), faults(i));
        if !ok {
          SyncStops(old(manifests), tenant, agent, tools, faults, i + 1);
          return;
        }
      }
      assert tools[..|tools|] == tools;
      ok := true;
    }

    method ReplaceExportedTools(r: Replacement) returns (ok: bool)
      modifies this
      ensures Outcome(manifests, ok) == Replace(old(manifests), r)
    {
      ok := DisableRemovedTools(r.tenant, r.agent, r.was, r.now, r.disabling);
      if !ok {
        return;
      }
      ok := SyncExportedTools(r.tenant, r.agent, r.now, r.syncing);
    }
  }

  lemma CurrentNext(tools: seq<Tool>, tool: Tool)
    ensures Current(tools + [tool]) == Current(tools) + if Active(tool) then {tool.id} else {}
  {
    assert forall t :: t in tools + [tool] <==> t in tools || t == tool;
  }

  lemma DisableNext(c: Catalog, tenant: string, agent: string, tools: seq<Tool>, current: set<string>,
                    faults: nat -> Fault, i: nat)
    requires i < |tools|
    ensures var before := DisableRemoved(c, tenant, agent, tools[..i], current, faults);
            DisableRemoved(c, tenant, agent, tools[..i + 1], current, faults)
            == if before.ok then DisableOne(before.catalog, tenant, agent, tools[i], current, faults(i)) else before
  {
    assert tools[..i + 1][..i] == tools[..i];
  }

  /** Once a loop has failed it does nothing more. */
  lemma {:induction false} DisableStops(c: Catalog, tenant: string, agent: string, tools: seq<Tool>,
                                        current: set<string>, faults: nat -> Fault, i: nat)
    requires i <= |tools| && !DisableRemoved(c, tenant, agent, tools[..i], current, faults).ok
    ensures DisableRemoved(c, tenant, agent, tools, current, faults)
            == DisableRemoved(c, tenant, agent, tools[..i], current, faults)
    decreases |tools| - i
  {
    if i == |tools| {
      assert tools[..i] == tools;
    } else {
      DisableNext(c, tenant, agent, tools, current, faults, i);
      DisableStops(c, tenant, agent, tools, current, faults, i + 1);
    }
  }

  lemma {:induction false} SyncStops(c: Catalog, tenant: string, agent: string, tools: seq<Tool>, faults: nat -> Fault,
                                     i: nat)
    requires i <= |tools| && !Sync(c, tenant, agent, tools[..i], faults).ok
    ensures Sync(c, tenant, agent, tools, faults) == Sync(c, tenant, agent, tools[..i], faults)
    decreases |tools| - i
  {
    if i == |tools| {
      assert tools[..i] == tools;
    } else {
      assert tools[..i + 1][..i] == tools[..i];
      SyncStops(c, tenant, agent, tools, faults, i + 1);
    }
  }
}
