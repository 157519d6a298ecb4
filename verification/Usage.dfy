/** The usage report of a service connection: which trace events count, and how they are folded into one
    summary and into evidence per provider and per tool. */
module Usage {
  import opened Options
  import opened Sorting
  import opened Text

  const RECENT_EVENTS := 20
  const HEALTHY := "healthy"

  datatype Kind = Invoked | Completed | Failed | HealthChecked | OtherKind

  /** The fields are the payload's strings, empty where missing; `at == 0` is the zero time. */
  datatype Event = Event(tenant: string, kind: Kind, connection: string, provider: string, tool: string,
                         operation: string, latency: int, errorCode: string, health: string, at: int, span: string)

  datatype Counts = Counts(events: nat, invocations: nat, completions: nat, failures: nat, healthChecks: nat,
                           healthFailures: nat, latency: int, samples: nat)

  datatype Evidence = Evidence(counts: Counts, average: int, last: Option<int>, errorCodes: seq<string>,
                               healthStatuses: seq<string>)

  datatype Provider = Provider(id: string, connection: string)

  datatype Operation = Operation(provider: string, id: string)

  /** What the connection serves. */
  datatype Impact = Impact(providers: seq<Provider>, operations: seq<Operation>, tools: seq<string>)

  datatype Report = Report(summary: Evidence, providers: seq<Evidence>, tools: seq<Evidence>, recent: seq<Event>)

  // ----- which events count -------------------------------------------------

  predicate Serves(impact: Impact, connection: string, provider: string) {
    exists p :: p in impact.providers && p.connection == connection && p.id == provider
  }

  predicate Performs(impact: Impact, provider: string, operation: string) {
    exists o :: o in impact.operations && Join2(o.provider, o.id) == Join2(provider, operation)
  }

  /** For provider ids without NUL the joined keys tell operations apart. */
  lemma PerformsExactly(impact: Impact, provider: string, operation: string)
    requires NulFree(provider) && forall o :: o in impact.operations ==> NulFree(o.provider)
    ensures Performs(impact, provider, operation) <==> Operation(provider, operation) in impact.operations
  {
    if Performs(impact, provider, operation) {
      var o :| o in impact.operations && Join2(o.provider, o.id) == Join2(provider, operation);
      Join2Injective(o.provider, o.id, provider, operation);
    }
  }

  predicate Matches(impact: Impact, connection: string, e: Event) {
    || e.connection == connection
    || (e.tool != "" && e.tool in impact.tools)
    || (e.provider != "" && e.operation != "" && Performs(impact, e.provider, e.operation))
    || (e.provider != "" && Serves(impact, connection, e.provider) && (e.tool == "" || e.tool in impact.tools))
  }

  predicate Relevant(tenant: string, connection: string, impact: Impact, e: Event) {
    e.tenant == tenant && !e.kind.OtherKind? && Matches(impact, connection, e)
  }

  function Matched(tenant: string, connection: string, impact: Impact, events: seq<Event>): seq<Event> {
    if events == [] then []
    else
      Matched(tenant, connection, impact, events[..|events| - 1])
      + if Relevant(tenant, connection, impact, events[|events| - 1]) then [events[|events| - 1]] else []
  }

  // ----- evidence -----------------------------------------------------------

  const NONE := Counts(0, 0, 0, 0, 0, 0, 0, 0)
  const NOTHING := Evidence(NONE, 0, None, [], [])

  function AppendUnique(values: seq<string>, value: string): seq<string> {
    if value == "" || value in values then values else values + [value]
  }

  function Unhealthy(e: Event): bool {
    e.kind.HealthChecked? && e.health != "" && e.health != HEALTHY
  }

  /** What a single event counts for. */
  function One(e: Event): Counts {
    var timed := e.kind.Completed? || e.kind.Failed? || e.kind.HealthChecked?;
    Counts(1, if e.kind.Invoked? then 1 else 0, if e.kind.Completed? then 1 else 0, if e.kind.Failed? then 1 else 0,
           if e.kind.HealthChecked? then 1 else 0, if Unhealthy(e) then 1 else 0,
           if timed then e.latency else 0, if timed then 1 else 0)
  }

  function Plus(a: Counts, b: Counts): Counts {
    Counts(a.events + b.events, a.invocations + b.invocations, a.completions + b.completions, a.failures + b.failures,
           a.healthChecks + b.healthChecks, a.healthFailures + b.healthFailures, a.latency + b.latency, a.samples
             + b.samples)
  }

  function Add(v: Evidence, e: Event): Evidence {
    Evidence(Plus(v.counts, One(e)), v.average,
             if e.at != 0 && (v.last.None? || e.at > v.last.value) then Some(e.at) else v.last,
             if e.kind.Failed? then AppendUnique(v.errorCodes, e.errorCode) else v.errorCodes,
             if e.kind.HealthChecked? then AppendUnique(v.healthStatuses, e.health) else v.healthStatuses)
  }

  function Fold(events: seq<Event>): Evidence {
    if events == [] then NOTHING else Add(Fold(events[..|events| - 1]), events[|events| - 1])
  }

  /** Go's integer division, which truncates toward zero. */
  function Quotient(a: int, b: nat): int
    requires b > 0
  {
    if a >= 0 then a / b else -((-a) / b)
  }

  function Finalize(v: Evidence): Evidence {
    if v.counts.samples > 0 then v.(average := Quotient(v.counts.latency, v.counts.samples)) else v
  }

  /** Evidence per provider, or per tool: events without one are in no entry. */
  function PerKey(events: seq<Event>, key: Event -> string): map<string, Evidence> {
    if events == [] then map[]
    else
      var before, last := PerKey(events[..|events| - 1], key), events[|events| - 1];
      if key(last) == "" then before else before[key(last) := Add(Of(before, key(last)), last)]
  }

  function Of(evidence: map<string, Evidence>, id: string): Evidence {
    if id in evidence then evidence[id] else NOTHING
  }

  predicate Later(a: Event, b: Event) {
    if a.at == b.at then Less(a.span, b.span) else a.at > b.at
  }

  function Recent(events: seq<Event>): seq<Event> {
    var sorted := Sort(events, Later);
    if |sorted| > RECENT_EVENTS then sorted[..RECENT_EVENTS] else sorted
  }

  function Listed(evidence: map<string, Evidence>, ids: seq<string>): seq<Evidence> {
    seq(|ids|, i requires 0 <= i < |ids| => Finalize(Of(evidence, ids[i])))
  }

  function ProviderIds(impact: Impact): seq<string> {
    seq(|impact.providers|, i requires 0 <= i < |impact.providers| => impact.providers[i].id)
  }

  function ProviderOf(e: Event): string { e.provider }

  function ToolOf(e: Event): string { e.tool }

  function Build(tenant: string, connection: string, impact: Impact, events: seq<Event>): Report {
    var matched := Matched(tenant, connection, impact, events);
    Report(Finalize(Fold(matched)), Listed(PerKey(matched, ProviderOf), ProviderIds(impact)),
           Listed(PerKey(matched, ToolOf), impact.tools), Recent(matched))
  }

  // ----- what the numbers mean ----------------------------------------------

  lemma {:induction false} MatchedAre(tenant: string, connection: string, impact: Impact, events: seq<Event>)
    ensures forall e :: e in Matched(tenant, connection, impact, events) <==>
              e in events && Relevant(tenant, connection, impact, e)
  {
    if events != [] {
      MatchedAre(tenant, connection, impact, events[..|events| - 1]);
      assert events == events[..|events| - 1] + [events[|events| - 1]];
    }
  }

  predicate Known(events: seq<Event>) {
    forall e :: e in events ==> !e.kind.OtherKind?
  }

  lemma {:induction false} FoldCounts(events: seq<Event>)
    requires Known(events)
    ensures var c := Fold(events).counts;
            && c.events == |events| == c.invocations + c.completions + c.failures + c.healthChecks
            && c.samples == c.completions + c.failures + c.healthChecks
            && c.healthFailures <= c.healthChecks
  {
    if events != [] {
      assert forall e :: e in events[..|events| - 1] ==> e in events;
      FoldCounts(events[..|events| - 1]);
    }
  }

  /** Every event of the report is one invocation, completion, failure or health check, and every one but
      an invocation is a latency sample. */
  lemma SummaryCountsEveryMatchedEvent(tenant: string, connection: string, impact: Impact, events: seq<Event>)
    ensures var c := Build(tenant, connection, impact, events).summary.counts;
            && c.events == |Matched(tenant, connection, impact, events)| == c.invocations + c.completions
               + c.failures + c.healthChecks
            && c.samples == c.completions + c.failures + c.healthChecks
            && c.healthFailures <= c.healthChecks
  {
    MatchedAre(tenant, connection, impact, events);
    FoldCounts(Matched(tenant, connection, impact, events));
  }

  /** How many of the events are such. */
  ghost function HowMany(events: seq<Event>, such: Event -> bool): nat {
    |set i | 0 <= i < |events| && such(events[i])|
  }

  lemma HowManyNext(events: seq<Event>, such: Event -> bool)
    requires events != []
    ensures var init, last := events[..|events| - 1], events[|events| - 1];
            HowMany(events, such) == HowMany(init, such) + if such(last) then 1 else 0
  {
    var init, n := events[..|events| - 1], |events| - 1;
    assert (set i | 0 <= i < |events| && such(events[i]))
           == (set i | 0 <= i < |init| && such(init[i])) + if such(events[n]) then {n} else {};
  }

  /** The latencies of the events that have one. */
  function Latencies(events: seq<Event>): int {
    if events == [] then 0
    else Latencies(events[..|events| - 1])
         + if events[|events| - 1].kind in {Completed, Failed, HealthChecked} then events[|events| - 1].latency else 0
  }

  function IsKind(kind: Kind): Event -> bool { (e: Event) => e.kind == kind }

  function IsHealthFailure(): Event -> bool {
    (e: Event) => e.kind == HealthChecked && e.health != "" && e.health != "healthy"
  }

  /** Every count is how many events of its kind there are; a health check fails if it reports a status other
      than "healthy"; latencies are added up over all but invocations. */
  lemma {:induction false} CountsAre(events: seq<Event>)
    ensures var c := Fold(events).counts;
            && c.events == |events|
            && c.invocations == HowMany(events, IsKind(Invoked))
            && c.completions == HowMany(events, IsKind(Completed))
            && c.failures == HowMany(events, IsKind(Failed))
            && c.healthChecks == HowMany(events, IsKind(HealthChecked))
            && c.healthFailures == HowMany(events, IsHealthFailure())
            && c.latency == Latencies(events)
  {
    if events != [] {
      CountsAre(events[..|events| - 1]);
      HowManyNext(events, IsKind(Invoked));
      HowManyNext(events, IsKind(Completed));
      HowManyNext(events, IsKind(Failed));
      HowManyNext(events, IsKind(HealthChecked));
      HowManyNext(events, IsHealthFailure());
    }
  }

  /** The average is the latency over the samples, cut off toward zero; without samples there is none. */
  lemma AverageIs(v: Evidence)
    ensures var average, samples := Finalize(v).average, v.counts.samples;
            && Finalize(v) == v.(average := average)
            && (samples == 0 ==> average == v.average)
            && (samples > 0 && v.counts.latency >= 0 ==>
                  0 <= average && average * samples <= v.counts.latency < (average + 1) * samples)
            && (samples > 0 && v.counts.latency < 0 ==>
                  average <= 0 && (average - 1) * samples < v.counts.latency <= average * samples)
  {
    var a, b := v.counts.latency, v.counts.samples;
    if b > 0 {
      if a >= 0 { QuotientFits(a, b); } else { QuotientFits(-a, b); }
    }
  }

  lemma QuotientFits(a: nat, b: nat)
    requires b > 0
    ensures 0 <= a / b && a / b * b <= a < (a / b + 1) * b
  {
    assert a == a / b * b + a % b;
  }

  predicate SomeAt(events: seq<Event>, time: int) {
    exists e :: e in events && e.at == time
  }

  predicate NoneAfter(events: seq<Event>, time: int) {
    forall e :: e in events && e.at != 0 ==> e.at <= time
  }

  lemma LastOfMore(events: seq<Event>, e: Event, time: int)
    ensures SomeAt(events + [e], time) <==> SomeAt(events, time) || e.at == time
    ensures NoneAfter(events + [e], time) <==> NoneAfter(events, time) && (e.at != 0 ==> e.at <= time)
  {
    assert e in events + [e] && forall x :: x in events + [e] <==> x in events || x == e;
    if SomeAt(events, time) {
      var x :| x in events && x.at == time;
      assert x in events + [e];
    }
    if NoneAfter(events + [e], time) {
      forall x | x in events && x.at != 0 ensures x.at <= time { assert x in events + [e]; }
    }
  }

  /** The last event is the latest one with a time. */
  lemma {:induction false} FoldRemembersLast(events: seq<Event>)
    ensures var last := Fold(events).last;
            && (last.None? <==> forall e :: e in events ==> e.at == 0)
            && (last.Some? ==> last.value != 0 && SomeAt(events, last.value) && NoneAfter(events, last.value))
  {
    if events != [] {
      var init, e := events[..|events| - 1], events[|events| - 1];
      assert events == init + [e] && e in events && forall x :: x in events <==> x in init || x == e;
      FoldRemembersLast(init);
      var before := Fold(init).last;
      var after := Fold(events).last;
      assert after == if e.at != 0 && (before.None? || e.at > before.value) then Some(e.at) else before;
      if after.Some? {
        LastOfMore(init, e, after.value);
        assert before.Some? && before.value <= after.value && NoneAfter(init, before.value)
               ==> NoneAfter(init, after.value);
      }
    }
  }

  /** The codes are exactly those of failures, the statuses those of health checks, once each. */
  lemma {:induction false} FoldRemembersCodes(events: seq<Event>)
    ensures NoRepeats(Fold(events).errorCodes) && NoRepeats(Fold(events).healthStatuses)
    ensures forall c :: c in Fold(events).errorCodes <==> c != "" && exists e :: e in events && e.kind.Failed? &&
                                                                       e.errorCode == c
    ensures forall c :: c in Fold(events).healthStatuses <==> c != "" && exists e :: e in events &&
                                                                           e.kind.HealthChecked? && e.health == c
  {
    if events != [] {
      var init, last := events[..|events| - 1], events[|events| - 1];
      FoldRemembersCodes(init);
      assert events == init + [last] && last in events;
      assert forall e :: e in events <==> e in init || e == last;
    }
  }

  // ----- conservation -------------------------------------------------------

  lemma PlusNone(a: Counts)
    ensures Plus(NONE, a) == a && Plus(a, NONE) == a
  {
  }

  /** An amount added to a sum may be added to either part. */
  lemma PlusToEither(a: Counts, b: Counts, more: Counts)
    ensures Plus(Plus(a, b), more) == Plus(Plus(a, more), b) == Plus(a, Plus(b, more))
  {
  }

  /** The counts of the listed entries together. */
  function Total(evidence: map<string, Evidence>, ids: seq<string>): Counts {
    if ids == [] then NONE
    else Plus(Total(evidence, ids[..|ids| - 1]), Of(evidence, ids[|ids| - 1]).counts)
  }

  /** The events that belong to none of the listed entries. */
  function Rest(events: seq<Event>, key: Event -> string, ids: seq<string>): seq<Event> {
    if events == [] then []
    else
      var last := events[|events| - 1];
      Rest(events[..|events| - 1], key, ids) + if key(last) == "" || key(last) !in ids then [last] else []
  }

  /** Changing the entry of one id changes the total by as much, if the id is listed, and not at all if not. */
  lemma {:induction false} TotalAfter(evidence: map<string, Evidence>, ids: seq<string>, id: string, v: Evidence,
                                      more: Counts)
    requires NoRepeats(ids) && v.counts == Plus(Of(evidence, id).counts, more)
    ensures Total(evidence[id := v], ids) == if id in ids then Plus(Total(evidence, ids), more)
            else Total(evidence, ids)
  {
    if ids != [] {
      var init, last := ids[..|ids| - 1], ids[|ids| - 1];
      assert ids == init + [last];
      TotalAfter(evidence, init, id, v, more);
      PlusToEither(Total(evidence, init), Of(evidence, last).counts, more);
    }
  }

  lemma {:induction false} NothingInTotal(evidence: map<string, Evidence>, ids: seq<string>)
    requires evidence.Keys == {}
    ensures Total(evidence, ids) == NONE
  {
    if ids != [] {
      NothingInTotal(evidence, ids[..|ids| - 1]);
      assert Of(evidence, ids[|ids| - 1]).counts == NONE;
      PlusNone(NONE);
    }
  }

  lemma FoldLast(events: seq<Event>, e: Event)
    ensures Fold(events + [e]) == Add(Fold(events), e)
  {
    assert (events + [e])[..|events|] == events;
  }

  lemma FoldOfMore(events: seq<Event>, e: Event)
    ensures Fold(events + [e]).counts == Plus(Fold(events).counts, One(e))
  {
    FoldLast(events, e);
    var v := Fold(events);
    assert Add(v, e).counts == Plus(v.counts, One(e));
  }

  /** One more event is counted once: in its entry, if that is listed, or else in the rest. */
  lemma TotalOfMore(events: seq<Event>, e: Event, key: Event -> string, ids: seq<string>)
    requires NoRepeats(ids)
    ensures Total(PerKey(events + [e], key), ids)
            == if key(e) != "" && key(e) in ids then Plus(Total(PerKey(events, key), ids), One(e))
              else Total(PerKey(events, key), ids)
  {
    var before := PerKey(events, key);
    assert (events + [e])[..|events|] == events;
    if key(e) != "" {
      TotalAfter(before, ids, key(e), Add(Of(before, key(e)), e), One(e));
    }
  }

  lemma RestOfMore(events: seq<Event>, e: Event, key: Event -> string, ids: seq<string>)
    ensures Fold(Rest(events + [e], key, ids)).counts
            == if key(e) != "" && key(e) in ids then Fold(Rest(events, key, ids)).counts
               else Plus(Fold(Rest(events, key, ids)).counts, One(e))
  {
    assert (events + [e])[..|events|] == events;
    if key(e) != "" && key(e) in ids {
      assert Rest(events + [e], key, ids) == Rest(events, key, ids);
    } else {
      FoldOfMore(Rest(events, key, ids), e);
    }
  }

  /** Every count of the whole is the sum of the listed entries and of the events in none of them. */
  lemma {:induction false} CountsAreConserved(events: seq<Event>, key: Event -> string, ids: seq<string>)
    requires NoRepeats(ids)
    ensures Fold(events).counts == Plus(Total(PerKey(events, key), ids), Fold(Rest(events, key, ids)).counts)
  {
    if events == [] {
      NothingInTotal(PerKey(events, key), ids);
      PlusNone(NONE);
    } else {
      var init, last := events[..|events| - 1], events[|events| - 1];
      assert events == init + [last];
      CountsAreConserved(init, key, ids);
      FoldOfMore(init, last);
      TotalOfMore(init, last, key, ids);
      RestOfMore(init, last, key, ids);
      PlusToEither(Total(PerKey(init, key), ids), Fold(Rest(init, key, ids)).counts, One(last));
    }
  }

  lemma ListedAreConserved(events: seq<Event>, key: Event -> string, ids: seq<string>)
    requires NoRepeats(ids)
    ensures Fold(events).counts == Plus(Sum(Listed(PerKey(events, key), ids)), Fold(Rest(events, key, ids)).counts)
  {
    CountsAreConserved(events, key, ids);
    SumOfListed(PerKey(events, key), ids);
  }

  lemma BuildParts(tenant: string, connection: string, impact: Impact, events: seq<Event>)
    ensures var matched := Matched(tenant, connection, impact, events);
            && Build(tenant, connection, impact, events).summary.counts == Fold(matched).counts
            && Build(tenant, connection, impact, events).providers
               == Listed(PerKey(matched, ProviderOf), ProviderIds(impact))
            && Build(tenant, connection, impact, events).tools == Listed(PerKey(matched, ToolOf), impact.tools)
  {
  }

  /** No id with evidence is listed twice. */
  predicate RepeatsUnseen(evidence: map<string, Evidence>, ids: seq<string>) {
    forall i, j :: 0 <= i < j < |ids| && ids[i] == ids[j] ==> ids[i] !in evidence
  }

  /** Every entry counts at least one event, and none is kept under the empty id. */
  predicate Counted(evidence: map<string, Evidence>) {
    "" !in evidence && forall id :: id in evidence ==> evidence[id].counts.events > 0
  }

  lemma {:induction false} EntriesAreCounted(events: seq<Event>, key: Event -> string)
    ensures Counted(PerKey(events, key))
  {
    if events != [] { EntriesAreCounted(events[..|events| - 1], key); }
  }

  lemma RepeatsUnseenNext(evidence: map<string, Evidence>, ids: seq<string>)
    requires ids != []
    ensures var init, last := ids[..|ids| - 1], ids[|ids| - 1];
            RepeatsUnseen(evidence, ids) <==> RepeatsUnseen(evidence, init) && (last in init ==> last !in evidence)
  {
    var init, last := ids[..|ids| - 1], ids[|ids| - 1];
    if RepeatsUnseen(evidence, ids) && last in init {
      var i :| 0 <= i < |init| && init[i] == last;
      assert ids[i] == ids[|init|];
    }
  }

  /** A repeated id with evidence makes the listed total too large, any other repetition is harmless. */
  lemma {:induction false} TotalOfRepeated(evidence: map<string, Evidence>, ids: seq<string>)
    requires Counted(evidence)
    ensures RepeatsUnseen(evidence, ids) ==> Total(evidence, ids) == Total(evidence, Distinct(ids))
    ensures Total(evidence, ids).events >= Total(evidence, Distinct(ids)).events
    ensures !RepeatsUnseen(evidence, ids) ==> Total(evidence, ids).events > Total(evidence, Distinct(ids)).events
  {
    if ids != [] {
      var init, last := ids[..|ids| - 1], ids[|ids| - 1];
      TotalOfRepeated(evidence, init);
      RepeatsUnseenNext(evidence, ids);
      DistinctHolds(init);
      var before := Distinct(init);
      if last == "" || last in before {
        PlusNone(Total(evidence, init));
        assert Distinct(ids) == before;
      } else {
        assert (before + [last])[..|before|] == before;
      }
    }
  }

  lemma {:induction false} RestByMembers(events: seq<Event>, key: Event -> string, ids: seq<string>, ids': seq<string>)
    requires forall id :: id != "" ==> (id in ids <==> id in ids')
    ensures Rest(events, key, ids) == Rest(events, key, ids')
  {
    if events != [] { RestByMembers(events[..|events| - 1], key, ids, ids'); }
  }

  /** For any list of ids, the whole is the listed entries and the rest exactly when no id with evidence is
      listed twice. */
  lemma ListedAreConservedIff(events: seq<Event>, key: Event -> string, ids: seq<string>)
    ensures Fold(events).counts == Plus(Sum(Listed(PerKey(events, key), ids)), Fold(Rest(events, key, ids)).counts)
       <==> RepeatsUnseen(PerKey(events, key), ids)
  {
    var evidence := PerKey(events, key);
    DistinctHolds(ids);
    ListedAreConserved(events, key, Distinct(ids));
    RestByMembers(events, key, ids, Distinct(ids));
    SumOfListed(evidence, ids);
    SumOfListed(evidence, Distinct(ids));
    EntriesAreCounted(events, key);
    TotalOfRepeated(evidence, ids);
    DifferentTotals(Total(evidence, ids), Total(evidence, Distinct(ids)), Fold(Rest(events, key, ids)).counts);
  }

  lemma DifferentTotals(a: Counts, b: Counts, rest: Counts)
    ensures a.events > b.events ==> Plus(a, rest) != Plus(b, rest)
  {
  }

  /** The report's summary is the sum of the evidence of the providers it lists and of the matched events
      that name no provider or one that is not listed, exactly when it lists no provider with evidence twice;
      the same holds for tools. */
  lemma SummaryIsSumOfPartsIff(tenant: string, connection: string, impact: Impact, events: seq<Event>)
    ensures var matched := Matched(tenant, connection, impact, events);
            (Build(tenant, connection, impact, events).summary.counts
             == Plus(Sum(Build(tenant, connection, impact, events).providers),
               Fold(Rest(matched, ProviderOf, ProviderIds(impact))).counts)
             <==> RepeatsUnseen(PerKey(matched, ProviderOf), ProviderIds(impact)))
    ensures var matched := Matched(tenant, connection, impact, events);
            (Build(tenant, connection, impact, events).summary.counts
             == Plus(Sum(Build(tenant, connection, impact, events).tools),
               Fold(Rest(matched, ToolOf, impact.tools)).counts)
             <==> RepeatsUnseen(PerKey(matched, ToolOf), impact.tools))
  {
    var matched := Matched(tenant, connection, impact, events);
    BuildParts(tenant, connection, impact, events);
    ListedAreConservedIff(matched, ProviderOf, ProviderIds(impact));
    ListedAreConservedIff(matched, ToolOf, impact.tools);
  }

  lemma {:induction false} SeenIsKept(events: seq<Event>, key: Event -> string, e: Event)
    requires e in events && key(e) != ""
    ensures key(e) in PerKey(events, key)
  {
    var init, last := events[..|events| - 1], events[|events| - 1];
    assert events == init + [last];
    if e in init { SeenIsKept(init, key, e); }
  }

  /** A tenant's own provider and a shared one of the same id are both listed, with the same evidence: one
      call by it makes the parts more than the summary. */
  lemma OwnAndSharedCountTwice(e: Event)
    requires e.tenant == "t" && e.kind.Invoked? && e.connection == "c" && e.provider == "p"
    ensures var impact := Impact([Provider("p", "c"), Provider("p", "c")], [], []);
            var rest := Rest(Matched("t", "c", impact, [e]), ProviderOf, ProviderIds(impact));
            Build("t", "c", impact, [e]).summary.counts != Plus(Sum(Build("t", "c", impact, [e]).providers),
              Fold(rest).counts)
  {
    var impact := Impact([Provider("p", "c"), Provider("p", "c")], [], []);
    var matched := Matched("t", "c", impact, [e]);
    MatchedAre("t", "c", impact, [e]);
    SeenIsKept(matched, ProviderOf, e);
    assert ProviderIds(impact)[0] == ProviderIds(impact)[1] == "p";
    SummaryIsSumOfPartsIff("t", "c", impact, [e]);
  }

  function Sum(parts: seq<Evidence>): Counts {
    if parts == [] then NONE else Plus(Sum(parts[..|parts| - 1]), parts[|parts| - 1].counts)
  }

  lemma {:induction false} SumOfListed(evidence: map<string, Evidence>, ids: seq<string>)
    ensures Sum(Listed(evidence, ids)) == Total(evidence, ids)
  {
    if ids != [] {
      var init := ids[..|ids| - 1];
      SumOfListed(evidence, init);
      assert Listed(evidence, ids)[..|init|] == Listed(evidence, init);
    }
  }

  /** Over all providers seen, the summary is their evidence together with the events that name none. */
  lemma SummaryIsSumOfAllProviders(events: seq<Event>, key: Event -> string, ids: seq<string>)
    requires NoRepeats(ids) && forall id :: id in ids <==> id in PerKey(events, key)
    ensures Fold(events).counts == Plus(Total(PerKey(events, key), ids), Fold(Without(events, key)).counts)
  {
    CountsAreConserved(events, key, ids);
    RestIsWithout(events, key, ids);
  }

  function Without(events: seq<Event>, key: Event -> string): seq<Event> {
    if events == [] then []
    else Without(events[..|events| - 1], key) + if key(events[|events| - 1]) == "" then [events[|events| - 1]] else []
  }

  lemma {:induction false} RestIsWithout(events: seq<Event>, key: Event -> string, ids: seq<string>)
    requires forall id :: id in PerKey(events, key) ==> id in ids
    ensures Rest(events, key, ids) == Without(events, key)
  {
    if events != [] {
      assert forall id :: id in PerKey(events[..|events| - 1], key) ==> id in PerKey(events, key);
      RestIsWithout(events[..|events| - 1], key, ids);
    }
  }

  function Only(events: seq<Event>, key: Event -> string, id: string): seq<Event> {
    if events == [] then []
    else Only(events[..|events| - 1], key, id) + if key(events[|events| - 1]) == id then [events[|events| - 1]] else []
  }

  /** The evidence of a provider or tool is the fold of exactly its own events. */
  lemma {:induction false} EntryIsFoldOfItsEvents(events: seq<Event>, key: Event -> string, id: string)
    requires id != ""
    ensures Of(PerKey(events, key), id) == Fold(Only(events, key, id))
  {
    if events != [] {
      var init, last := events[..|events| - 1], events[|events| - 1];
      EntryIsFoldOfItsEvents(init, key, id);
      if key(last) == id {
        var own := Only(init, key, id);
        assert (own + [last])[..|own|] == own;
      } else {
        assert Only(events, key, id) == Only(init, key, id);
      }
    }
  }

  // ----- the report, said of events and what the connection serves ----------

  predicate HasProvider(impact: Impact, id: string, connection: string) {
    exists p :: p in impact.providers && p.id == id && p.connection == connection
  }

  /** The event is of the tenant, of a kind that counts, and names the connection, one of the tools it serves,
      one of its operations, or one of its own providers without naming a tool it does not serve. */
  predicate Concerns(e: Event, tenant: string, connection: string, impact: Impact) {
    && e.tenant == tenant && e.kind != OtherKind
    && (|| e.connection == connection
        || (e.tool != "" && e.tool in impact.tools)
        || (e.provider != "" && e.operation != "" && Operation(e.provider, e.operation) in impact.operations)
        || (e.provider != "" && HasProvider(impact, e.provider, connection)
            && (e.tool == "" || e.tool in impact.tools)))
  }

  lemma RelevantIff(tenant: string, connection: string, impact: Impact, e: Event)
    requires NulFree(e.provider) && forall o :: o in impact.operations ==> NulFree(o.provider)
    ensures Relevant(tenant, connection, impact, e) <==> Concerns(e, tenant, connection, impact)
  {
    PerformsExactly(impact, e.provider, e.operation);
    if Serves(impact, connection, e.provider) {
      var p :| p in impact.providers && p.connection == connection && p.id == e.provider;
      assert HasProvider(impact, e.provider, connection);
    }
  }

  /** The events that count, in order. */
  function Concerning(tenant: string, connection: string, impact: Impact, events: seq<Event>): seq<Event> {
    if events == [] then []
    else
      Concerning(tenant, connection, impact, events[..|events| - 1])
      + if Concerns(events[|events| - 1], tenant, connection, impact) then [events[|events| - 1]] else []
  }

  lemma {:induction false} MatchedIsConcerning(tenant: string, connection: string, impact: Impact, events: seq<Event>)
    requires forall o :: o in impact.operations ==> NulFree(o.provider)
    requires forall e :: e in events ==> NulFree(e.provider)
    ensures Matched(tenant, connection, impact, events) == Concerning(tenant, connection, impact, events)
  {
    if events != [] {
      assert forall e :: e in events[..|events| - 1] ==> e in events;
      MatchedIsConcerning(tenant, connection, impact, events[..|events| - 1]);
      RelevantIff(tenant, connection, impact, events[|events| - 1]);
    }
  }

  function OfProvider(events: seq<Event>, id: string): seq<Event> {
    if events == [] then []
    else
      OfProvider(events[..|events| - 1], id)
      + if events[|events| - 1].provider == id then [events[|events| - 1]] else []
  }

  function OfTool(events: seq<Event>, id: string): seq<Event> {
    if events == [] then []
    else OfTool(events[..|events| - 1], id) + if events[|events| - 1].tool == id then [events[|events| - 1]] else []
  }

  lemma {:induction false} OnlyIsOf(events: seq<Event>, id: string)
    ensures Only(events, ProviderOf, id) == OfProvider(events, id) && Only(events, ToolOf, id) == OfTool(events, id)
  {
    if events != [] { OnlyIsOf(events[..|events| - 1], id); }
  }

  /** The summary is the evidence of the events that count; each entry, in the order of providers and tools,
      that of those among them that name it. */
  lemma ReportIs(tenant: string, connection: string, impact: Impact, events: seq<Event>)
    requires forall o :: o in impact.operations ==> NulFree(o.provider)
    requires forall e :: e in events ==> NulFree(e.provider)
    ensures var report := Build(tenant, connection, impact, events);
            var counted := Concerning(tenant, connection, impact, events);
            && report.summary == Finalize(Fold(counted)) && report.recent == Recent(counted)
            && |report.providers| == |impact.providers| && |report.tools| == |impact.tools|
            && (forall i :: 0 <= i < |impact.providers| && impact.providers[i].id != "" ==>
                  report.providers[i] == Finalize(Fold(OfProvider(counted, impact.providers[i].id))))
            && (forall i :: 0 <= i < |impact.tools| && impact.tools[i] != "" ==>
                  report.tools[i] == Finalize(Fold(OfTool(counted, impact.tools[i]))))
  {
    var counted := Concerning(tenant, connection, impact, events);
    MatchedIsConcerning(tenant, connection, impact, events);
    forall i | 0 <= i < |impact.providers| && impact.providers[i].id != ""
      ensures Of(PerKey(counted, ProviderOf), impact.providers[i].id)
              == Fold(OfProvider(counted, impact.providers[i].id))
    {
      EntryIsFoldOfItsEvents(counted, ProviderOf, impact.providers[i].id);
      OnlyIsOf(counted, impact.providers[i].id);
    }
    forall i | 0 <= i < |impact.tools| && impact.tools[i] != ""
      ensures Of(PerKey(counted, ToolOf), impact.tools[i]) == Fold(OfTool(counted, impact.tools[i]))
    {
      EntryIsFoldOfItsEvents(counted, ToolOf, impact.tools[i]);
      OnlyIsOf(counted, impact.tools[i]);
    }
  }

  /** Later, or of the same time and with no greater span. */
  predicate NotBefore(a: Event, b: Event) {
    a.at > b.at || (a.at == b.at && (a.span == b.span || Less(a.span, b.span)))
  }

  /** The report shows the latest events, twenty at most, the latest first; none left out is later. */
  lemma RecentAreLatest(events: seq<Event>)
    ensures var recent := Recent(events);
            && |recent| == (if |events| > 20 then 20 else |events|)
            && (forall e :: e in recent ==> e in events)
            && (forall i, j :: 0 <= i < j < |recent| ==> NotBefore(recent[i], recent[j]))
            && (forall e, r :: e in events && e !in recent && r in recent ==> NotBefore(r, e))
  {
    LessIsStrictTotalOrder();
    LaterIsWeakOrder();
    SortSorted(events, Later);
    SortElements(events, Later);
    var sorted, recent := Sort(events, Later), Recent(events);
    forall a: Event, b: Event | !Later(b, a) ensures NotBefore(a, b) {
    }
    assert forall k :: 0 <= k < |recent| ==> recent[k] == sorted[k] && recent[k] in recent;
    forall e, r | e in events && e !in recent && r in recent ensures NotBefore(r, e) {
      var i :| 0 <= i < |recent| && recent[i] == r;
      var j :| 0 <= j < |sorted| && sorted[j] == e;
      assert !Later(sorted[j], sorted[i]);
    }
  }

  lemma LaterIsWeakOrder()
    ensures WeakOrder(Later)
  {
    LessIsStrictTotalOrder();
  }

  // ----- the loops ----------------------------------------------------------

  class TraceEvidence {
    var evidence: Evidence

    constructor (start: Evidence)
      ensures evidence == start
    {
      evidence := start;
    }

    method AddTraceEvent(e: Event)
      requires !e.kind.OtherKind?
      modifies this
      ensures evidence == Add(old(evidence), e)
    {
      var counts := evidence.counts;
      counts := counts.(events := counts.events + 1);
      if e.at != 0 && (evidence.last.None? || e.at > evidence.last.value) {
        evidence := evidence.(last := Some(e.at));
      }
      match e.kind {
        case Invoked =>
          counts := counts.(invocations := counts.invocations + 1);
        case Completed =>
          counts := counts.(completions := counts.completions + 1, latency := counts.latency + e.latency,
            samples := counts.samples + 1);
        case Failed =>
          counts := counts.(failures := counts.failures + 1, latency := counts.latency + e.latency,
            samples := counts.samples + 1);
          if e.errorCode != "" {
            evidence := evidence.(errorCodes := AppendUnique(evidence.errorCodes, e.errorCode));
          }
        case HealthChecked =>
          counts := counts.(healthChecks := counts.healthChecks + 1, latency := counts.latency + e.latency,
            samples := counts.samples + 1);
          if e.health != "" {
            evidence := evidence.(healthStatuses := AppendUnique(evidence.healthStatuses, e.health));
            if e.health != HEALTHY {
              counts := counts.(healthFailures := counts.healthFailures + 1);
            }
          }
      }
      evidence := evidence.(counts := counts);
    }

    method FinalizeEvidence()
      modifies this
      ensures evidence == Finalize(old(evidence))
    {
      if evidence.counts.samples > 0 {
        evidence := evidence.(average := Quotient(evidence.counts.latency, evidence.counts.samples));
      }
    }
  }

  method EventMatches(connection: string, e: Event, impact: Impact, direct: set<string>, operations: set<string>,
                      tools: set<string>)
    returns (ok: bool)
    requires direct == set p | p in impact.providers && p.connection == connection :: p.id
    requires operations == set o | o in impact.operations :: Join2(o.provider, o.id)
    requires tools == set t | t in impact.tools
    ensures ok == Matches(impact, connection, e)
  {
    if e.connection == connection {
      return true;
    }
    if e.tool != "" {
      if e.tool in tools {
        return true;
      }
    }
    if e.provider != "" && e.operation != "" {
      if Join2(e.provider, e.operation) in operations {
        return true;
      }
    }
    if e.provider != "" {
      if e.provider in direct {
        return e.tool == "" || e.tool in tools;
      }
    }
    return false;
  }

  /** Adds an event to the evidence kept under an id. */
  method AddTo(evidence: map<string, Evidence>, id: string, e: Event) returns (after: map<string, Evidence>)
    requires !e.kind.OtherKind?
    ensures after == if id == "" then evidence else evidence[id := Add(Of(evidence, id), e)]
  {
    if id == "" {
      return evidence;
    }
    var before := Of(evidence, id);
    var entry := new TraceEvidence(before);
    entry.AddTraceEvent(e);
    assert entry.evidence == Add(before, e);
    after := evidence[id := entry.evidence];
    assert after == evidence[id := Add(before, e)];
  }

  method ListEvidence(evidence: map<string, Evidence>, ids: seq<string>) returns (out: seq<Evidence>)
    ensures out == Listed(evidence, ids)
  {
    out := [];
    for i := 0 to |ids|
      invariant |out| == i && forall j :: 0 <= j < i ==> out[j] == Finalize(Of(evidence, ids[j]))
    {
      var entry := new TraceEvidence(Of(evidence, ids[i]));
      entry.FinalizeEvidence();
      out := out + [entry.evidence];
    }
  }

  method BuildUsage(tenant: string, connection: string, impact: Impact, events: seq<Event>) returns (report: Report)
    ensures report == Build(tenant, connection, impact, events)
  {
    var direct := set p | p in impact.providers && p.connection == connection :: p.id;
    var operations := set o | o in impact.operations :: Join2(o.provider, o.id);
    var tools := set t | t in impact.tools;
    var summary := new TraceEvidence(NOTHING);
    var perProvider: map<string, Evidence>, perTool: map<string, Evidence> := map[], map[];
    var recent: seq<Event> := [];
    for i := 0 to |events|
      invariant recent == Matched(tenant, connection, impact, events[..i])
      invariant summary.evidence == Fold(recent)
      invariant perProvider == PerKey(recent, ProviderOf) && perTool == PerKey(recent, ToolOf)
    {
      assert events[..i + 1][..i] == events[..i];
      var e := events[i];
      if e.tenant != tenant || e.kind.OtherKind? {
        continue;
      }
      var matches := EventMatches(connection, e, impact, direct, operations, tools);
      if !matches {
        continue;
      }
      summary.AddTraceEvent(e);
      perProvider := AddTo(perProvider, e.provider, e);
      perTool := AddTo(perTool, e.tool, e);
      assert (recent + [e])[..|recent|] == recent;
      recent := recent + [e];
    }
    assert events[..|events|] == events;
    summary.FinalizeEvidence();
    var sorted := Sort(recent, Later);
    if |sorted| > RECENT_EVENTS {
      sorted := sorted[..RECENT_EVENTS];
    }
    var providers := ListEvidence(perProvider, ProviderIds(impact));
    var toolEvidence := ListEvidence(perTool, impact.tools);
    report := Report(summary.evidence, providers, toolEvidence, sorted);
  }
}
