/** The service-access operations of resources/service_broker.go, run against a marketplace whose
    requests may be lost. */
module BrokerResource {
  import opened Wrappers
  import opened ServiceAccess
  import opened SplitAccess
  import opened AccessTheory
  import opened UpdateTheory
  import opened CloudMarket
  import opened BrokerRequests

  function Entries(es: seq<Entry>): set<Entry> { set e | e in es }

  // ----- Reading service access back -----

  /** isPlanInAllOrgs */
  method IsPlanInAllOrgs(client: Marketplace, plan: string) returns (r: Result<bool>)
    modifies client`faults, client`sent
    ensures client.faults == if r.Success? then old(client.faults) else old(client.faults) + 1
    ensures r.Success? ==> (r.value <==> Everywhere(client.orgs, client.Pairs(), plan))
    ensures Sends(old(client.sent), client.sent, CheckRequests(client.orgs, client.Pairs(), plan), r.Success?)
  {
    var orgs := client.ListOrgs();
    if orgs.Failure? { return Failure(orgs.error); }
    for i := 0 to |orgs.value|
      invariant client.faults == old(client.faults) && client.sent == old(client.sent) + 1 + i
      invariant Everywhere(orgs.value[..i], client.Pairs(), plan)
    {
      SearchesAfter(orgs.value, client.Pairs(), plan, i);
      var found := client.Search(plan, Some(orgs.value[i]));
      if found.Failure? { return Failure(found.error); }
      MatchingEmptyIff(client.rows, plan, orgs.value[i]);
      EverywhereNext(orgs.value, client.Pairs(), plan, i);
      if |found.value| == 0 {
        return Success(false);
      }
    }
    assert orgs.value[..|orgs.value|] == orgs.value;
    SearchesAfter(orgs.value, client.Pairs(), plan, |orgs.value|);
    return Success(true);
  }

  lemma EverywhereNext(orgs: seq<string>, pairs: set<Pair>, plan: string, i: nat)
    requires i < |orgs| && Everywhere(orgs[..i], pairs, plan)
    ensures (plan, orgs[i]) in pairs ==> Everywhere(orgs[..i + 1], pairs, plan)
    ensures (plan, orgs[i]) !in pairs ==> !Everywhere(orgs, pairs, plan)
  {
    assert orgs[..i + 1] == orgs[..i] + [orgs[i]];
    assert orgs[i] in orgs;
  }

  /** The visibilities of a plan that is not in all orgs, as entries. */
  ghost predicate PairEntry(s: Service, orgs: seq<string>, pairs: set<Pair>, n: nat, e: Entry)
    requires n <= |s.plans|
  {
    && e.service == s.name
    && exists j :: 0 <= j < n && e.plan == s.plans[j].name && !Everywhere(orgs, pairs, s.plans[j].guid)
                   && (s.plans[j].guid, e.orgId) in pairs
  }

  ghost predicate EverywhereEntry(s: Service, orgs: seq<string>, pairs: set<Pair>, n: nat, e: Entry)
    requires n <= |s.plans|
  {
    exists j :: 0 <= j < n && e == Entry(s.name, s.plans[j].name, "") && Everywhere(orgs, pairs, s.plans[j].guid)
  }

  datatype Scan = Scan(haveAllPlanInAllOrg: bool, inAllOrgs: seq<Entry>, orgAndPlan: seq<Entry>)

  /** One entry per visibility, in order. */
  function VisibilityEntries(s: Service, plan: Plan, visibilities: seq<Visibility>): (es: seq<Entry>)
    ensures |es| == |visibilities|
    ensures forall k :: 0 <= k < |es| ==> es[k] == Entry(s.name, plan.name, visibilities[k].org)
  {
    if visibilities == [] then []
    else VisibilityEntries(s, plan, visibilities[..|visibilities| - 1])
         + [Entry(s.name, plan.name, visibilities[|visibilities| - 1].org)]
  }

  /** The plans among the first n that are in all orgs, in order. */
  ghost function EverywherePart(s: Service, orgs: seq<string>, pairs: set<Pair>, n: nat): seq<Entry>
    requires n <= |s.plans|
  {
    if n == 0 then []
    else
      EverywherePart(s, orgs, pairs, n - 1)
      + (if Everywhere(orgs, pairs, s.plans[n - 1].guid) then [Entry(s.name, s.plans[n - 1].name, "")] else [])
  }

  /** The visibilities of the other plans among the first n, in the order the controller lists them. */
  ghost function LonePart(s: Service, orgs: seq<string>, rows: seq<Visibility>, n: nat): seq<Entry>
    requires n <= |s.plans|
  {
    if n == 0 then []
    else
      var plan := s.plans[n - 1];
      LonePart(s, orgs, rows, n - 1)
      + (if Everywhere(orgs, PairsOf(rows), plan.guid) then []
         else VisibilityEntries(s, plan, Matching(rows, plan.guid, None)))
  }

  /** What the loop over the plans of s finds. */
  ghost predicate IsScan(s: Service, orgs: seq<string>, rows: seq<Visibility>, scan: Scan) {
    && (scan.haveAllPlanInAllOrg <==> RetrievedBare(s, orgs, PairsOf(rows)))
    && (!scan.haveAllPlanInAllOrg ==>
          && scan.inAllOrgs == EverywherePart(s, orgs, PairsOf(rows), |s.plans|)
          && scan.orgAndPlan == LonePart(s, orgs, rows, |s.plans|))
  }

  /** The loop over the plans of one service. */
  method ScanPlans(client: Marketplace, s: Service) returns (r: Result<Scan>)
    modifies client`faults, client`sent
    ensures client.faults == if r.Success? then old(client.faults) else old(client.faults) + 1
    ensures r.Success? ==> IsScan(s, client.orgs, client.rows, r.value)
    ensures Sends(old(client.sent), client.sent, PlansRequests(s.plans, client.orgs, client.Pairs()), r.Success?)
  {
    ghost var orgs, rows := client.orgs, client.rows;
    ghost var total := PlansRequests(s.plans, orgs, PairsOf(rows));
    var scan := Scan(true, [], []);
    assert s.plans[0..] == s.plans;
    for i := 0 to |s.plans|
      invariant client.faults == old(client.faults)
      invariant client.sent + PlansRequests(s.plans[i..], orgs, PairsOf(rows)) == old(client.sent) + total
      invariant client.sent >= old(client.sent)
      invariant ScannedTo(s, orgs, rows, i, scan)
    {
      PlansRequestsAfter(s.plans, orgs, PairsOf(rows), i);
      if s.plans[i].public {
        PublicIsBare(s, orgs, rows, i);
        return Success(scan.(haveAllPlanInAllOrg := true));
      }
      var next := ScanPlan(client, s, i, scan);
      if next.Failure? { return next; }
      scan := next.value;
    }
    ScanDone(s, orgs, rows, scan);
    return Success(scan);
  }

  /** One turn of that loop, for a plan that is not public. */
  method ScanPlan(client: Marketplace, s: Service, i: nat, scan: Scan) returns (r: Result<Scan>)
    requires i < |s.plans| && !s.plans[i].public
    requires ScannedTo(s, client.orgs, client.rows, i, scan)
    modifies client`faults, client`sent
    ensures client.faults == if r.Success? then old(client.faults) else old(client.faults) + 1
    ensures r.Success? ==> ScannedTo(s, client.orgs, client.rows, i + 1, r.value)
    ensures Sends(old(client.sent), client.sent, PlanRequests(client.orgs, client.Pairs(), s.plans[i].guid), r.Success?)
  {
    var plan := s.plans[i];
    var everywhere := IsPlanInAllOrgs(client, plan.guid);
    if everywhere.Failure? { return Failure(everywhere.error); }
    ScanNext(s, client.orgs, client.rows, i, scan);
    if everywhere.value {
      return Success(scan.(inAllOrgs := scan.inAllOrgs + [Entry(s.name, plan.name, "")]));
    }
    var visibilities := client.Search(plan.guid, None);
    if visibilities.Failure? { return Failure(visibilities.error); }
    var added := EntriesOf(s, plan, visibilities.value);
    return Success(scan.(haveAllPlanInAllOrg := false, orgAndPlan := scan.orgAndPlan + added));
  }

  lemma PublicIsBare(s: Service, orgs: seq<string>, rows: seq<Visibility>, i: nat)
    requires i < |s.plans| && s.plans[i].public
    ensures RetrievedBare(s, orgs, PairsOf(rows))
    ensures forall scan: Scan :: scan.haveAllPlanInAllOrg ==> IsScan(s, orgs, rows, scan)
  {
    assert s.plans[i] in s.plans;
  }

  lemma ScanDone(s: Service, orgs: seq<string>, rows: seq<Visibility>, scan: Scan)
    requires ScannedTo(s, orgs, rows, |s.plans|, scan)
    ensures IsScan(s, orgs, rows, scan)
  {
  }

  ghost predicate NonePublic(s: Service, n: nat)
    requires n <= |s.plans|
  {
    forall j :: 0 <= j < n ==> !s.plans[j].public
  }

  ghost predicate AllEverywhere(s: Service, orgs: seq<string>, pairs: set<Pair>, n: nat)
    requires n <= |s.plans|
  {
    forall j :: 0 <= j < n ==> Everywhere(orgs, pairs, s.plans[j].guid)
  }

  /** What plan i adds to a scan. */
  lemma ScanNext(s: Service, orgs: seq<string>, rows: seq<Visibility>, i: nat, scan: Scan)
    requires i < |s.plans| && !s.plans[i].public && ScannedTo(s, orgs, rows, i, scan)
    ensures var plan := s.plans[i];
            if Everywhere(orgs, PairsOf(rows), plan.guid) then
              ScannedTo(s, orgs, rows, i + 1, scan.(inAllOrgs := scan.inAllOrgs + [Entry(s.name, plan.name, "")]))
            else
              var added := VisibilityEntries(s, plan, Matching(rows, plan.guid, None));
              ScannedTo(s, orgs, rows, i + 1,
                        scan.(haveAllPlanInAllOrg := false, orgAndPlan := scan.orgAndPlan + added))
  {
    var pairs := PairsOf(rows);
    assert NonePublic(s, i + 1);
    assert AllEverywhere(s, orgs, pairs, i + 1) <==>
           AllEverywhere(s, orgs, pairs, i) && Everywhere(orgs, pairs, s.plans[i].guid);
  }

  /** The first n plans are not public, and the scan holds their entries. */
  ghost predicate ScannedTo(s: Service, orgs: seq<string>, rows: seq<Visibility>, n: nat, scan: Scan)
    requires n <= |s.plans|
  {
    && NonePublic(s, n)
    && (scan.haveAllPlanInAllOrg <==> AllEverywhere(s, orgs, PairsOf(rows), n))
    && scan.inAllOrgs == EverywherePart(s, orgs, PairsOf(rows), n)
    && scan.orgAndPlan == LonePart(s, orgs, rows, n)
  }

  // ----- What the scanned lists hold -----

  lemma {:induction false} EverywherePartHolds(s: Service, orgs: seq<string>, pairs: set<Pair>, n: nat)
    requires n <= |s.plans|
    ensures forall e :: e in EverywherePart(s, orgs, pairs, n) <==> EverywhereEntry(s, orgs, pairs, n, e)
  {
    if n > 0 {
      EverywherePartHolds(s, orgs, pairs, n - 1);
      forall e
        ensures EverywhereEntry(s, orgs, pairs, n, e) <==>
                EverywhereEntry(s, orgs, pairs, n - 1, e)
                || (e == Entry(s.name, s.plans[n - 1].name, "") && Everywhere(orgs, pairs, s.plans[n - 1].guid))
      {
      }
    }
  }

  /** es are the pair entries of the first n plans, without repetition. */
  ghost predicate HoldsPairs(s: Service, orgs: seq<string>, pairs: set<Pair>, n: nat, es: seq<Entry>)
    requires n <= |s.plans|
  {
    (forall e :: e in es <==> PairEntry(s, orgs, pairs, n, e)) && DistinctEntries(es)
  }

  lemma {:induction false} LonePartHolds(s: Service, orgs: seq<string>, rows: seq<Visibility>, n: nat)
    requires n <= |s.plans| && PlansWellFormed(s) && DistinctPairs(rows)
    ensures HoldsPairs(s, orgs, PairsOf(rows), n, LonePart(s, orgs, rows, n))
  {
    if n > 0 {
      LonePartHolds(s, orgs, rows, n - 1);
      LoneStep(s, orgs, rows, n - 1, LonePart(s, orgs, rows, n - 1));
    }
  }

  lemma LoneStep(s: Service, orgs: seq<string>, rows: seq<Visibility>, i: nat, init: seq<Entry>)
    requires PlansWellFormed(s) && DistinctPairs(rows) && i < |s.plans|
    requires HoldsPairs(s, orgs, PairsOf(rows), i, init)
    ensures var plan := s.plans[i];
            HoldsPairs(s, orgs, PairsOf(rows), i + 1,
                       init + (if Everywhere(orgs, PairsOf(rows), plan.guid) then []
                               else VisibilityEntries(s, plan, Matching(rows, plan.guid, None))))
  {
    var plan, pairs := s.plans[i], PairsOf(rows);
    PairEntryNext(s, orgs, pairs, i);
    if Everywhere(orgs, pairs, plan.guid) {
      assert init + [] == init;
    } else {
      VisibilitiesHold(s, plan, rows);
      AppendDistinct(s, orgs, pairs, i, init, VisibilityEntries(s, plan, Matching(rows, plan.guid, None)));
    }
  }

  lemma VisibilitiesHold(s: Service, plan: Plan, rows: seq<Visibility>)
    requires DistinctPairs(rows)
    ensures var es := VisibilityEntries(s, plan, Matching(rows, plan.guid, None));
            && DistinctEntries(es)
            && forall e: Entry :: e in es <==>
                 e.service == s.name && e.plan == plan.name && (plan.guid, e.orgId) in PairsOf(rows)
  {
    var found := Matching(rows, plan.guid, None);
    MatchingDistinct(rows, plan.guid, None);
    AddedEntries(s, PairsOf(rows), plan, rows, found, VisibilityEntries(s, plan, found));
  }

  lemma PairEntryNext(s: Service, orgs: seq<string>, pairs: set<Pair>, i: nat)
    requires i < |s.plans|
    ensures forall e :: PairEntry(s, orgs, pairs, i + 1, e) <==>
              PairEntry(s, orgs, pairs, i, e)
              || (e.service == s.name && e.plan == s.plans[i].name && !Everywhere(orgs, pairs, s.plans[i].guid)
                  && (s.plans[i].guid, e.orgId) in pairs)
  {
  }

  lemma MatchingEmptyIff(rows: seq<Visibility>, plan: string, org: string)
    ensures Matching(rows, plan, Some(org)) == [] <==> (plan, org) !in PairsOf(rows)
  {
  }

  method EntriesOf(s: Service, plan: Plan, visibilities: seq<Visibility>) returns (es: seq<Entry>)
    ensures es == VisibilityEntries(s, plan, visibilities)
  {
    es := [];
    for i := 0 to |visibilities|
      invariant es == VisibilityEntries(s, plan, visibilities[..i])
    {
      assert visibilities[..i + 1][..i] == visibilities[..i];
      es := es + [Entry(s.name, plan.name, visibilities[i].org)];
    }
    assert visibilities[..|visibilities|] == visibilities;
  }

  lemma {:induction false} MatchingDistinct(rows: seq<Visibility>, plan: string, org: Option<string>)
    requires DistinctPairs(rows)
    ensures DistinctPairs(Matching(rows, plan, org))
  {
    if rows != [] {
      var v, rest := rows[0], rows[1..];
      MatchingDistinct(rest, plan, org);
      var found := Matching(rest, plan, org);
      forall w | w in found
        ensures v.plan != w.plan || v.org != w.org
      {
        var k :| 0 <= k < |rest| && rest[k] == w;
        assert rows[k + 1] == w;
      }
      FirstIsDistinct(v, found);
    }
  }

  lemma FirstIsDistinct(v: Visibility, rest: seq<Visibility>)
    requires DistinctPairs(rest) && forall w :: w in rest ==> v.plan != w.plan || v.org != w.org
    ensures DistinctPairs([v] + rest)
  {
  }

  lemma AddedEntries(s: Service, pairs: set<Pair>, plan: Plan, rows: seq<Visibility>,
                     found: seq<Visibility>, added: seq<Entry>)
    requires pairs == PairsOf(rows) && found == Matching(rows, plan.guid, None)
    requires |added| == |found|
    requires forall k :: 0 <= k < |added| ==> added[k] == Entry(s.name, plan.name, found[k].org)
    requires DistinctPairs(found)
    ensures forall e: Entry :: e in added <==>
              e.service == s.name && e.plan == plan.name && (plan.guid, e.orgId) in pairs
    ensures DistinctEntries(added)
  {
  }

  lemma AppendDistinct(s: Service, orgs: seq<string>, pairs: set<Pair>, i: nat, es: seq<Entry>, added: seq<Entry>)
    requires PlansWellFormed(s) && i < |s.plans|
    requires DistinctEntries(es) && DistinctEntries(added)
    requires forall e :: e in es ==> PairEntry(s, orgs, pairs, i, e)
    requires forall e :: e in added ==> e.plan == s.plans[i].name
    ensures DistinctEntries(es + added)
  {
    forall k, l | 0 <= k < |es| && 0 <= l < |added|
      ensures es[k] != added[l]
    {
      assert PairEntry(s, orgs, pairs, i, es[k]);
      var j :| 0 <= j < i && es[k].plan == s.plans[j].name;
      assert s.plans[j] in s.plans && s.plans[i] in s.plans && s.plans[j] != s.plans[i];
      assert added[l] in added;
    }
  }

  // ----- From scans to entries -----

  /** A scan of a service that is not bare, by what its lists hold. */
  ghost predicate HoldsScan(s: Service, orgs: seq<string>, pairs: set<Pair>, scan: Scan) {
    && !RetrievedBare(s, orgs, pairs)
    && (forall e :: e in scan.inAllOrgs <==> EverywhereEntry(s, orgs, pairs, |s.plans|, e))
    && (forall e :: e in scan.orgAndPlan <==> PairEntry(s, orgs, pairs, |s.plans|, e))
    && DistinctEntries(scan.orgAndPlan)
  }

  lemma PlansAtIffWhole(s: Service, orgs: seq<string>, pairs: set<Pair>, scan: Scan, org: string)
    requires PlansWellFormed(s) && HoldsScan(s, orgs, pairs, scan)
    ensures PlansAt(scan.orgAndPlan, org) == Names(s.plans) <==> Whole(s, orgs, pairs, org)
  {
    var es := scan.orgAndPlan;
    if PlansAt(es, org) == Names(s.plans) {
      forall p | p in s.plans
        ensures (p.guid, org) in pairs && !Everywhere(orgs, pairs, p.guid)
      {
        assert p.name in Names(s.plans);
        var e :| e in es && e.orgId == org && e.plan == p.name;
        var j :| 0 <= j < |s.plans| && e.plan == s.plans[j].name && !Everywhere(orgs, pairs, s.plans[j].guid)
                 && (s.plans[j].guid, e.orgId) in pairs;
        assert s.plans[j] in s.plans && s.plans[j] == p;
      }
    }
    if Whole(s, orgs, pairs, org) {
      forall name | name in Names(s.plans)
        ensures name in PlansAt(es, org)
      {
        var j :| 0 <= j < |s.plans| && s.plans[j].name == name;
        assert s.plans[j] in s.plans;
        assert PairEntry(s, orgs, pairs, |s.plans|, Entry(s.name, name, org));
        assert Entry(s.name, name, org) in es;
      }
      forall e | e in es
        ensures e.plan in Names(s.plans)
      {
        assert PairEntry(s, orgs, pairs, |s.plans|, e);
      }
    }
  }

  lemma ScanIsSplittable(s: Service, orgs: seq<string>, pairs: set<Pair>, scan: Scan)
    requires PlansWellFormed(s) && OrgsWellFormed(orgs) && OrgsKnown(orgs, pairs)
    requires HoldsScan(s, orgs, pairs, scan)
    ensures Splittable(scan.orgAndPlan, s)
    ensures forall e :: e in scan.orgAndPlan ==> e.plan != "" && e.orgId in orgs
  {
  }

  /** The entries the scan and its split give are the ones RetrievedFrom describes. */
  lemma ScanIsRetrieved(s: Service, orgs: seq<string>, pairs: set<Pair>, scan: Scan, e: Entry)
    requires PlansWellFormed(s) && OrgsWellFormed(orgs) && OrgsKnown(orgs, pairs)
    requires HoldsScan(s, orgs, pairs, scan)
    ensures RetrievedFrom(s, orgs, pairs, e) <==>
            e in scan.inAllOrgs || InOnlyOrg(scan.orgAndPlan, |s.plans|, e) || InFull(scan.orgAndPlan, |s.plans|, e)
  {
    var es := scan.orgAndPlan;
    ScanIsSplittable(s, orgs, pairs, scan);
    FullResult(es, s, e);
    OnlyOrgResult(es, s, e);
    PlansAtIffWhole(s, orgs, pairs, scan, e.orgId);
    if e.plan == "" {
      OrgOnlyEntry(s, orgs, pairs, scan, e);
    } else {
      PlanEntry(s, orgs, pairs, scan, e);
    }
  }

  lemma OrgOnlyEntry(s: Service, orgs: seq<string>, pairs: set<Pair>, scan: Scan, e: Entry)
    requires PlansWellFormed(s) && OrgsWellFormed(orgs) && OrgsKnown(orgs, pairs)
    requires HoldsScan(s, orgs, pairs, scan) && e.plan == ""
    ensures e !in scan.inAllOrgs && e !in scan.orgAndPlan
    ensures RetrievedFrom(s, orgs, pairs, e) <==>
            e.service == s.name && Whole(s, orgs, pairs, e.orgId)
            && exists x :: x in scan.orgAndPlan && x.orgId == e.orgId
  {
    ScanIsSplittable(s, orgs, pairs, scan);
    forall j | 0 <= j < |s.plans|
      ensures s.plans[j].name != ""
    {
      assert s.plans[j] in s.plans;
    }
    if Whole(s, orgs, pairs, e.orgId) {
      var p := s.plans[0];
      assert p in s.plans && (p.guid, e.orgId) in pairs && (p.guid, e.orgId).1 in orgs;
      var x := Entry(s.name, p.name, e.orgId);
      assert PairEntry(s, orgs, pairs, |s.plans|, x);
      assert x in scan.orgAndPlan;
    }
  }

  lemma PlanEntry(s: Service, orgs: seq<string>, pairs: set<Pair>, scan: Scan, e: Entry)
    requires PlansWellFormed(s) && OrgsWellFormed(orgs) && OrgsKnown(orgs, pairs)
    requires HoldsScan(s, orgs, pairs, scan) && e.plan != ""
    ensures RetrievedFrom(s, orgs, pairs, e) <==>
            e in scan.inAllOrgs || (e in scan.orgAndPlan && !Whole(s, orgs, pairs, e.orgId))
  {
  }

  /** The entries of one service, in order. */
  ghost function ServiceEntries(s: Service, orgs: seq<string>, rows: seq<Visibility>): seq<Entry> {
    var n, lone := |s.plans|, LonePart(s, orgs, rows, |s.plans|);
    if RetrievedBare(s, orgs, PairsOf(rows)) then [Entry(s.name, "", "")]
    else EverywherePart(s, orgs, PairsOf(rows), n) + OnlyOrgPart(lone, n, |lone|) + FullPart(lone, n, |lone|)
  }

  lemma ServiceEntriesHold(s: Service, orgs: seq<string>, rows: seq<Visibility>, e: Entry)
    requires PlansWellFormed(s) && OrgsWellFormed(orgs) && OrgsKnown(orgs, PairsOf(rows)) && DistinctPairs(rows)
    ensures e in ServiceEntries(s, orgs, rows) <==> RetrievedFrom(s, orgs, PairsOf(rows), e)
  {
    var n, pairs, lone := |s.plans|, PairsOf(rows), LonePart(s, orgs, rows, |s.plans|);
    if !RetrievedBare(s, orgs, pairs) {
      var scan := ScanHolds(s, orgs, rows);
      ScanIsRetrieved(s, orgs, pairs, scan, e);
      InThree(scan.inAllOrgs, lone, n, e);
    }
  }

  lemma InThree(inAllOrgs: seq<Entry>, lone: seq<Entry>, n: nat, e: Entry)
    ensures e in inAllOrgs + OnlyOrgPart(lone, n, |lone|) + FullPart(lone, n, |lone|) <==>
            e in inAllOrgs || InOnlyOrg(lone, n, e) || InFull(lone, n, e)
  {
    PartsHold(lone, n, |lone|);
  }

  lemma ScanHolds(s: Service, orgs: seq<string>, rows: seq<Visibility>) returns (scan: Scan)
    requires PlansWellFormed(s) && DistinctPairs(rows) && !RetrievedBare(s, orgs, PairsOf(rows))
    ensures HoldsScan(s, orgs, PairsOf(rows), scan)
    ensures scan.inAllOrgs == EverywherePart(s, orgs, PairsOf(rows), |s.plans|)
    ensures scan.orgAndPlan == LonePart(s, orgs, rows, |s.plans|)
  {
    EverywherePartHolds(s, orgs, PairsOf(rows), |s.plans|);
    LonePartHolds(s, orgs, rows, |s.plans|);
    scan := Scan(false, EverywherePart(s, orgs, PairsOf(rows), |s.plans|), LonePart(s, orgs, rows, |s.plans|));
  }

  /** The loop body of retrieveServicesAccessFromBroker. */
  method RetrieveService(client: Marketplace, s: Service) returns (r: Result<seq<Entry>>)
    modifies client`faults, client`sent
    ensures client.faults == if r.Success? then old(client.faults) else old(client.faults) + 1
    ensures r.Success? ==> r.value == ServiceEntries(s, client.orgs, client.rows)
    ensures Sends(old(client.sent), client.sent, PlansRequests(s.plans, client.orgs, client.Pairs()), r.Success?)
  {
    var scanned := ScanPlans(client, s);
    if scanned.Failure? { return Failure(scanned.error); }
    var scan := scanned.value;
    if scan.haveAllPlanInAllOrg {
      return Success([Entry(s.name, "", "")]);
    }
    var onlyWithOrg, full := SplitServiceAccess(scan.orgAndPlan, |s.plans|);
    return Success(scan.inAllOrgs + onlyWithOrg + full);
  }

  /** The entries of several services, in order. */
  ghost function BrokerEntries(services: seq<Service>, orgs: seq<string>, rows: seq<Visibility>): seq<Entry> {
    if services == [] then []
    else BrokerEntries(services[..|services| - 1], orgs, rows) + ServiceEntries(services[|services| - 1], orgs, rows)
  }

  lemma {:induction false} BrokerEntriesHold(services: seq<Service>, orgs: seq<string>, rows: seq<Visibility>, e: Entry)
    requires forall s :: s in services ==> PlansWellFormed(s)
    requires OrgsWellFormed(orgs) && OrgsKnown(orgs, PairsOf(rows)) && DistinctPairs(rows)
    ensures e in BrokerEntries(services, orgs, rows) <==>
            exists s :: s in services && RetrievedFrom(s, orgs, PairsOf(rows), e)
  {
    if services != [] {
      var init, last := services[..|services| - 1], services[|services| - 1];
      assert services == init + [last];
      BrokerEntriesHold(init, orgs, rows, e);
      ServiceEntriesHold(last, orgs, rows, e);
    }
  }

  lemma BrokerEntriesNext(services: seq<Service>, orgs: seq<string>, rows: seq<Visibility>, i: nat)
    requires i < |services|
    ensures BrokerEntries(services[..i + 1], orgs, rows) ==
            BrokerEntries(services[..i], orgs, rows) + ServiceEntries(services[i], orgs, rows)
  {
    assert services[..i + 1][..i] == services[..i];
  }

  /** retrieveServicesAccessFromBroker: the entries of the services in order.  If a request is lost at
      service n, the error comes with the entries of the services before it. */
  method RetrieveServicesAccess(client: Marketplace, b: Broker)
    returns (es: seq<Entry>, err: Option<string>, ghost n: nat)
    modifies client`faults, client`sent
    ensures client.faults == if err.None? then old(client.faults) else old(client.faults) + 1
    ensures n <= |b.services| && (err.None? <==> n == |b.services|)
    ensures es == BrokerEntries(b.services[..n], client.orgs, client.rows)
    ensures SendsUpTo(b.services, client.orgs, client.Pairs(), n, old(client.sent), client.sent)
    ensures Sends(old(client.sent), client.sent, ServicesRequests(b.services, client.orgs, client.Pairs()), err.None?)
    ensures err.None? && client.Valid() && WellFormed(b) ==>
              AreRetrieved(b, client.orgs, client.Pairs(), Entries(es))
  {
    es, err, n := RetrieveFrom(client, b.services);
    ServicesRequestsUpTo(b.services, client.orgs, client.Pairs(), if err.None? then n else n + 1);
    assert b.services[..|b.services|] == b.services;
    if err.None? && client.Valid() && WellFormed(b) {
      AllAreRetrieved(client.orgs, client.rows, b);
    }
  }

  /** Its loop. */
  method RetrieveFrom(client: Marketplace, services: seq<Service>)
    returns (es: seq<Entry>, err: Option<string>, ghost n: nat)
    modifies client`faults, client`sent
    ensures client.faults == if err.None? then old(client.faults) else old(client.faults) + 1
    ensures n <= |services| && (err.None? <==> n == |services|)
    ensures es == BrokerEntries(services[..n], client.orgs, client.rows)
    ensures SendsUpTo(services, client.orgs, client.Pairs(), n, old(client.sent), client.sent)
  {
    ghost var orgs, rows := client.orgs, client.rows;
    es := [];
    for i := 0 to |services|
      invariant client.faults == old(client.faults)
      invariant es == BrokerEntries(services[..i], orgs, rows)
      invariant client.sent == old(client.sent) + ServicesRequests(services[..i], orgs, PairsOf(rows))
    {
      ServicesRequestsNext(services, orgs, PairsOf(rows), i);
      var more := RetrieveService(client, services[i]);
      if more.Failure? {
        return es, Some(more.error), i;
      }
      BrokerEntriesNext(services, orgs, rows, i);
      es := es + more.value;
    }
    assert services[..|services|] == services;
    return es, None, |services|;
  }

  lemma AllAreRetrieved(orgs: seq<string>, rows: seq<Visibility>, b: Broker)
    requires WellFormed(b) && OrgsWellFormed(orgs) && OrgsKnown(orgs, PairsOf(rows)) && DistinctPairs(rows)
    ensures AreRetrieved(b, orgs, PairsOf(rows), Entries(BrokerEntries(b.services, orgs, rows)))
  {
    forall s | s in b.services
      ensures PlansWellFormed(s)
    {
      assert ServiceWellFormed(b, s);
    }
    forall e
      ensures e in BrokerEntries(b.services, orgs, rows) <==> IsRetrieved(b, orgs, PairsOf(rows), e)
    {
      BrokerEntriesHold(b.services, orgs, rows, e);
    }
  }

  // ----- Expanding entries -----

  /** Every plan of the service, in the org of e. */
  method GetServicesAccessDefWithOnlyOrg(s: Service, e: Entry) returns (ts: seq<Entry>)
    ensures |ts| == |s.plans|
    ensures forall k :: 0 <= k < |ts| ==> ts[k] == Entry(e.service, s.plans[k].name, e.orgId)
  {
    ts := [];
    for i := 0 to |s.plans|
      invariant |ts| == i && forall k :: 0 <= k < i ==> ts[k] == Entry(e.service, s.plans[k].name, e.orgId)
    {
      ts := ts + [Entry(e.service, s.plans[i].name, e.orgId)];
    }
  }

  /** The plan of e, in every org. */
  method GetServicesAccessDefWithOnlyPlan(client: Marketplace, e: Entry) returns (r: Result<seq<Entry>>)
    modifies client`faults, client`sent
    ensures client.faults == if r.Success? then old(client.faults) else old(client.faults) + 1
    ensures client.sent == old(client.sent) + 1
    ensures r.Success? ==> |r.value| == |client.orgs|
    ensures r.Success? ==> forall k :: 0 <= k < |client.orgs| ==>
              r.value[k] == Entry(e.service, e.plan, client.orgs[k])
  {
    var orgs := client.ListOrgs();
    if orgs.Failure? { return Failure(orgs.error); }
    var ts: seq<Entry> := [];
    for i := 0 to |orgs.value|
      invariant |ts| == i && forall k :: 0 <= k < i ==> ts[k] == Entry(e.service, e.plan, orgs.value[k])
    {
      ts := ts + [Entry(e.service, e.plan, orgs.value[i])];
    }
    return Success(ts);
  }

  function InEveryOrg(e: Entry, orgs: seq<string>): (ts: seq<Entry>)
    ensures |ts| == |orgs| && forall k :: 0 <= k < |orgs| ==> ts[k] == Entry(e.service, e.plan, orgs[k])
  {
    if orgs == [] then []
    else InEveryOrg(e, orgs[..|orgs| - 1]) + [Entry(e.service, e.plan, orgs[|orgs| - 1])]
  }

  function WithEveryPlan(e: Entry, plans: seq<Plan>): (ts: seq<Entry>)
    ensures |ts| == |plans| && forall k :: 0 <= k < |plans| ==> ts[k] == Entry(e.service, plans[k].name, e.orgId)
  {
    if plans == [] then []
    else WithEveryPlan(e, plans[..|plans| - 1]) + [Entry(e.service, plans[|plans| - 1].name, e.orgId)]
  }

  /** The expansion of e, in order: the plan in every org, or every plan in the org, or nothing. */
  function Expansion(b: Broker, orgs: seq<string>, e: Entry): seq<Entry> {
    var found := FindService(b.services, e.service);
    if found.None? then []
    else if e.plan != "" then InEveryOrg(e, orgs)
    else if e.orgId != "" then WithEveryPlan(e, found.value.plans)
    else []
  }

  lemma ExpansionHolds(b: Broker, orgs: seq<string>, e: Entry, t: Entry)
    ensures t in Expansion(b, orgs, e) <==> IsExpansion(b, orgs, e, t)
  {
    if IsExpansion(b, orgs, e, t) {
      var plans := FindService(b.services, e.service).value.plans;
      if e.plan != "" {
        var k :| 0 <= k < |orgs| && orgs[k] == t.orgId;
        assert Expansion(b, orgs, e)[k] == t;
      } else {
        var p :| p in plans && t.plan == p.name;
        var k :| 0 <= k < |plans| && plans[k] == p;
        assert Expansion(b, orgs, e)[k] == t;
      }
    }
  }

  /** getFullServiceAccessDef */
  method GetFullServiceAccessDef(client: Marketplace, b: Broker, e: Entry) returns (r: Result<seq<Entry>>)
    modifies client`faults, client`sent
    ensures r.Success? ==> client.faults == old(client.faults) && Known(b, e)
    ensures r.Failure? ==> client.faults == old(client.faults) + 1
                           || (client.faults == old(client.faults) && !Known(b, e))
    ensures client.sent == old(client.sent) + (if Known(b, e) && e.plan != "" then 1 else 0)
    ensures r.Success? ==> r.value == Expansion(b, client.orgs, e)
  {
    var found := FindService(b.services, e.service);
    if found.None? {
      return Failure("service does not exist");
    }
    var ts: seq<Entry> := [];
    if e.orgId != "" && e.plan != "" {
      ts := ts + [e];
    }
    if e.orgId != "" {
      ts := GetServicesAccessDefWithOnlyOrg(found.value, e);
    }
    if e.plan != "" {
      r := GetServicesAccessDefWithOnlyPlan(client, e);
      return;
    }
    return Success(ts);
  }

  ghost predicate Known(b: Broker, e: Entry) { FindService(b.services, e.service).Some? }

  /** The expansions of several entries, in order. */
  function Expansions(b: Broker, orgs: seq<string>, es: seq<Entry>): seq<Entry> {
    if es == [] then [] else Expansions(b, orgs, es[..|es| - 1]) + Expansion(b, orgs, es[|es| - 1])
  }

  lemma {:induction false} ExpansionsHold(b: Broker, orgs: seq<string>, es: seq<Entry>)
    ensures AreExpansions(b, orgs, Entries(es), Entries(Expansions(b, orgs, es)))
  {
    if es != [] {
      var init, last := es[..|es| - 1], es[|es| - 1];
      assert es == init + [last];
      ExpansionsHold(b, orgs, init);
      forall t
        ensures t in Entries(Expansions(b, orgs, es)) <==> IsExpansionOf(b, orgs, Entries(es), t)
      {
        ExpansionHolds(b, orgs, last, t);
        assert t in Entries(Expansions(b, orgs, init)) <==> IsExpansionOf(b, orgs, Entries(init), t);
      }
    }
  }

  lemma ExpansionsNext(b: Broker, orgs: seq<string>, es: seq<Entry>, i: nat)
    requires i < |es|
    ensures Expansions(b, orgs, es[..i + 1]) == Expansions(b, orgs, es[..i]) + Expansion(b, orgs, es[i])
  {
    assert es[..i + 1][..i] == es[..i];
  }

  ghost predicate AllKnown(b: Broker, es: seq<Entry>) { forall e :: e in es ==> Known(b, e) }

  lemma AllKnownNext(b: Broker, es: seq<Entry>, i: nat)
    requires i < |es|
    ensures AllKnown(b, es[..i + 1]) <==> AllKnown(b, es[..i]) && Known(b, es[i])
    ensures !Known(b, es[i]) ==> !AllKnown(b, es)
  {
    assert es[..i + 1] == es[..i] + [es[i]];
    assert es[i] in es;
  }

  /** getFullServicesAccessDef */
  method GetFullServicesAccessDef(client: Marketplace, b: Broker, es: seq<Entry>) returns (r: Result<seq<Entry>>)
    modifies client`faults, client`sent
    ensures r.Success? ==> client.faults == old(client.faults) && AllKnown(b, es)
    ensures r.Failure? ==> client.faults == old(client.faults) + 1
                           || (client.faults == old(client.faults) && !AllKnown(b, es))
    ensures r.Success? ==> r.value == Expansions(b, client.orgs, es)
    ensures r.Success? ==> client.sent == old(client.sent) + ExpandRequests(es)
    ensures old(client.sent) <= client.sent <= old(client.sent) + ExpandRequests(es)
  {
    var ts: seq<Entry> := [];
    for i := 0 to |es|
      invariant client.faults == old(client.faults)
      invariant AllKnown(b, es[..i]) && ts == Expansions(b, client.orgs, es[..i])
      invariant client.sent == old(client.sent) + ExpandRequests(es[..i])
    {
      ExpandRequestsUpTo(es, i);
      var more := GetFullServiceAccessDef(client, b, es[i]);
      AllKnownNext(b, es, i);
      if more.Failure? {
        return more;
      }
      ExpansionsNext(b, client.orgs, es, i);
      ts := ts + more.value;
    }
    assert es[..|es|] == es;
    return Success(ts);
  }
}
