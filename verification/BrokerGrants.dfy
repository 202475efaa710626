/** Granting and revoking service access: the create path, and the service-access part of Update. */
module BrokerGrants {
  import opened Wrappers
  import opened ServiceAccess
  import opened CloudMarket
  import opened BrokerResource

  // ----- Single pairs -----

  /** The plan and org of t name x in service s. */
  ghost predicate Names(s: Service, t: Entry, x: Pair) {
    var plan := FindPlan(s.guid, s.plans, t.plan);
    plan.Some? && x == (plan.value.guid, t.orgId)
  }

  /** t can be granted: its plan exists in s, and its org exists. */
  ghost predicate Grantable(s: Service, orgs: seq<string>, t: Entry) {
    FindPlan(s.guid, s.plans, t.plan).Some? && t.orgId in orgs
  }

  /** updateServiceAccessWithPlanAndOrg */
  method UpdateServiceAccessWithPlanAndOrg(client: Marketplace, s: Service, t: Entry) returns (err: Option<string>)
    requires client.Valid()
    modifies client`rows, client`next, client`faults, client`sent
    ensures client.Valid() && client.faults >= old(client.faults)
    ensures err.None? ==> client.faults == old(client.faults) && Grantable(s, client.orgs, t)
    ensures err.Some? ==> client.faults > old(client.faults) || !Grantable(s, client.orgs, t)
    ensures forall x :: x in client.Pairs() <==> x in old(client.Pairs()) || (err.None? && Names(s, t, x))
  {
    var plan := FindPlan(s.guid, s.plans, t.plan);
    if plan.None? {
      return Some("plan does not exist");
    }
    var outcome := client.CreateVisibility(plan.value.guid, t.orgId);
    match outcome
    case Created => return None;
    case Taken =>
      assert (plan.value.guid, t.orgId).1 in client.orgs;
      return None;
    case Rejected => return Some("visibility not created");
  }

  /** The pairs named by the first n entries of ts. */
  ghost predicate NamedAmong(s: Service, ts: seq<Entry>, n: nat, x: Pair)
    requires n <= |ts|
  {
    exists j :: 0 <= j < n && Names(s, ts[j], x)
  }

  /** Grants entries of one service one by one, up to the first that cannot be granted. */
  method GrantEach(client: Marketplace, s: Service, ts: seq<Entry>) returns (err: Option<string>, ghost n: nat)
    requires client.Valid()
    modifies client`rows, client`next, client`faults, client`sent
    ensures client.Valid() && client.faults >= old(client.faults)
    ensures err.None? ==> client.faults == old(client.faults)
    ensures err.Some? ==> client.faults > old(client.faults) || exists t :: t in ts && !Grantable(s, client.orgs, t)
    ensures n <= |ts| && (err.None? <==> n == |ts|) && forall j :: 0 <= j < n ==> Grantable(s, client.orgs, ts[j])
    ensures forall x :: x in client.Pairs() <==> x in old(client.Pairs()) || NamedAmong(s, ts, n, x)
  {
    for i := 0 to |ts|
      invariant client.Valid() && client.faults == old(client.faults)
      invariant forall j :: 0 <= j < i ==> Grantable(s, client.orgs, ts[j])
      invariant forall x :: x in client.Pairs() <==> x in old(client.Pairs()) || NamedAmong(s, ts, i, x)
    {
      err := UpdateServiceAccessWithPlanAndOrg(client, s, ts[i]);
      if err.Some? {
        assert ts[i] in ts;
        n := i;
        return;
      }
    }
    return None, |ts|;
  }

  // ----- Public flags -----

  function Flag(m: map<string, bool>, plans: seq<Plan>, isPublic: bool): map<string, bool> {
    if plans == [] then m else Flag(m, plans[..|plans| - 1], isPublic)[plans[|plans| - 1].guid := isPublic]
  }

  /** updateToVisibilityServicePlan: flags the plans in order, up to the first lost request. */
  method UpdateToVisibilityServicePlan(client: Marketplace, s: Service, isPublic: bool)
    returns (err: Option<string>, ghost flagged: nat)
    modifies client`public, client`faults, client`sent
    ensures client.faults == if err.None? then old(client.faults) else old(client.faults) + 1
    ensures flagged <= |s.plans| && (err.None? <==> flagged == |s.plans|)
    ensures client.public == Flag(old(client.public), s.plans[..flagged], isPublic)
  {
    for i := 0 to |s.plans|
      invariant client.faults == old(client.faults)
      invariant client.public == Flag(old(client.public), s.plans[..i], isPublic)
    {
      var ok := client.SetPublic(s.plans[i], isPublic);
      if !ok {
        return Some("plan not updated"), i;
      }
      assert s.plans[..i + 1][..i] == s.plans[..i];
    }
    return None, |s.plans|;
  }

  /** The flags an update sets: every entry flags all plans of its service, public if it is bare. */
  function PublicAfter(b: Broker, m: map<string, bool>, es: seq<Entry>): map<string, bool> {
    if es == [] then m
    else
      var before, e := PublicAfter(b, m, es[..|es| - 1]), es[|es| - 1];
      var found := FindService(b.services, e.service);
      if found.None? then before else Flag(before, found.value.plans, e.IsBare())
  }

  /** The first n plans of the service of e have been flagged. */
  function FlagFirst(b: Broker, m: map<string, bool>, e: Entry, isPublic: bool, n: nat): map<string, bool> {
    var found := FindService(b.services, e.service);
    if found.None? || n > |found.value.plans| then m else Flag(m, found.value.plans[..n], isPublic)
  }

  /** The flags after all of the first k entries and the first n plans of entry k. */
  function PublicUpTo(b: Broker, m: map<string, bool>, es: seq<Entry>, k: nat, n: nat): map<string, bool>
    requires k <= |es|
  {
    var before := PublicAfter(b, m, es[..k]);
    if k == |es| then before else FlagFirst(b, before, es[k], es[k].IsBare(), n)
  }

  /** updateServicesAccessToPublicServicePlan.  On an error at entry k the entries before it and the
      first plans of its service have been flagged, and nothing else. */
  method UpdateServicesAccessToPublicServicePlan(client: Marketplace, b: Broker, es: seq<Entry>)
    returns (err: Option<string>, ghost k: nat, ghost flagged: nat)
    modifies client`public, client`faults, client`sent
    ensures client.faults >= old(client.faults)
    ensures err.None? ==> client.faults == old(client.faults) && AllKnown(b, es)
    ensures err.Some? ==> client.faults > old(client.faults) || !AllKnown(b, es)
    ensures err.None? ==> k == |es| && client.public == PublicAfter(b, old(client.public), es)
    ensures err.Some? ==> k < |es| && (client.faults == old(client.faults) ==> !Known(b, es[k]))
    ensures k <= |es| && AllKnown(b, es[..k])
    ensures client.public == PublicUpTo(b, old(client.public), es, k, flagged)
  {
    for i := 0 to |es|
      invariant client.faults == old(client.faults)
      invariant AllKnown(b, es[..i])
      invariant client.public == PublicAfter(b, old(client.public), es[..i])
    {
      var found := FindService(b.services, es[i].service);
      AllKnownNext(b, es, i);
      if found.None? {
        return Some("service does not exist"), i, 0;
      }
      if es[i].plan != "" || es[i].orgId != "" {
        err, flagged := UpdateToVisibilityServicePlan(client, found.value, false);
      } else {
        err, flagged := UpdateToVisibilityServicePlan(client, found.value, true);
      }
      if err.Some? {
        k := i;
        return;
      }
      assert found.value.plans[..|found.value.plans|] == found.value.plans;
      assert es[..i + 1][..i] == es[..i];
    }
    assert es[..|es|] == es;
    return None, |es|, 0;
  }

  lemma {:induction false} FlagAt(m: map<string, bool>, plans: seq<Plan>, isPublic: bool, guid: string)
    ensures var flagged := Flag(m, plans, isPublic);
            if exists p :: p in plans && p.guid == guid then guid in flagged && flagged[guid] == isPublic
            else (guid in flagged <==> guid in m) && (guid in m ==> flagged[guid] == m[guid])
  {
    if plans != [] {
      var init, last := plans[..|plans| - 1], plans[|plans| - 1];
      assert plans == init + [last];
      FlagAt(m, init, isPublic, guid);
    }
  }

  /** The last entry that names service s. */
  function LastMention(b: Broker, es: seq<Entry>, s: Service): Option<Entry> {
    if es == [] then None
    else if FindService(b.services, es[|es| - 1].service) == Some(s) then Some(es[|es| - 1])
    else LastMention(b, es[..|es| - 1], s)
  }

  /** After the flags are set, a plan is public exactly when the last wanted entry for its service is
      bare; plans of services not mentioned keep their flag. */
  lemma {:induction false} PublicIsLastMention(b: Broker, m: map<string, bool>, es: seq<Entry>, s: Service, p: Plan)
    requires WellFormed(b) && Owns(b, s, p)
    ensures var after := PublicAfter(b, m, es);
            match LastMention(b, es, s)
            case Some(e) => p.guid in after && after[p.guid] == e.IsBare()
            case None => (p.guid in after <==> p.guid in m) && (p.guid in m ==> after[p.guid] == m[p.guid])
  {
    if es != [] {
      var init, e := es[..|es| - 1], es[|es| - 1];
      PublicIsLastMention(b, m, init, s, p);
      var found := FindService(b.services, e.service);
      if found.Some? {
        FlagAt(PublicAfter(b, m, init), found.value.plans, e.IsBare(), p.guid);
        if found.value != s {
          OtherServicePlan(b, s, p, found.value);
        }
      }
    }
  }

  lemma OtherServicePlan(b: Broker, s: Service, p: Plan, t: Service)
    requires WellFormed(b) && Owns(b, s, p) && t in b.services && t != s
    ensures forall q :: q in t.plans ==> q.guid != p.guid
  {
    forall q | q in t.plans
      ensures q.guid != p.guid
    {
      assert Owns(b, t, q);
    }
  }

  // ----- The create path -----

  /** The flags the create path sets: only a bare entry, and only to public. */
  function PublicGranted(b: Broker, m: map<string, bool>, es: seq<Entry>): map<string, bool> {
    if es == [] then m
    else
      var before, e := PublicGranted(b, m, es[..|es| - 1]), es[|es| - 1];
      var found := FindService(b.services, e.service);
      if found.None? || !e.IsBare() then before else Flag(before, found.value.plans, true)
  }

  /** The entry resolves: its service exists, and what it grants exists. */
  ghost predicate Resolves(b: Broker, orgs: seq<string>, e: Entry) {
    var found := FindService(b.services, e.service);
    && found.Some?
    && (e.plan != "" ==> FindPlan(found.value.guid, found.value.plans, e.plan).Some? || (e.orgId == "" && orgs == []))
    && (e.orgId != "" ==> e.orgId in orgs || (e.plan == "" && found.value.plans == []))
  }

  /** Nothing is revoked, and nothing granted outside what e denotes. */
  ghost predicate GrantsAtMost(b: Broker, orgs: seq<string>, e: Entry, before: set<Pair>, after: set<Pair>) {
    before <= after && forall x :: x in after ==> x in before || (!e.IsBare() && Denotes(b, orgs, e, x))
  }

  /** Everything a non-bare entry denotes is granted. */
  ghost predicate GrantsAll(b: Broker, orgs: seq<string>, e: Entry, after: set<Pair>) {
    !e.IsBare() ==> forall x :: Denotes(b, orgs, e, x) ==> x in after
  }

  lemma FullGrant(b: Broker, orgs: seq<string>, s: Service, e: Entry, before: set<Pair>, after: set<Pair>, ok: bool)
    requires FindService(b.services, e.service) == Some(s) && e.IsFull()
    requires forall x :: x in after <==> x in before || (ok && Names(s, e, x))
    ensures GrantsAtMost(b, orgs, e, before, after)
    ensures ok ==> GrantsAll(b, orgs, e, after)
  {
    forall x
      ensures Names(s, e, x) <==> Denotes(b, orgs, e, x)
    {
      NamesIsDenotes(b, orgs, s, e, x);
    }
  }

  lemma PublicGrantedOne(b: Broker, m: map<string, bool>, s: Service, e: Entry)
    requires FindService(b.services, e.service) == Some(s)
    ensures PublicGranted(b, m, [e]) == if e.IsBare() then Flag(m, s.plans, true) else m
  {
    assert [e][..0] == [];
  }

  /** updateServiceAccess.  On an error nothing is revoked, nothing outside the entry is granted, and of
      a bare entry the first plans have been made public. */
  method UpdateServiceAccess(client: Marketplace, b: Broker, e: Entry)
    returns (err: Option<string>, ghost flagged: nat)
    requires client.Valid() && WellFormed(b)
    modifies client`rows, client`next, client`public, client`faults, client`sent
    ensures client.Valid() && client.faults >= old(client.faults)
    ensures err.None? ==> client.faults == old(client.faults) && Resolves(b, client.orgs, e)
    ensures err.Some? ==> client.faults > old(client.faults) || !Resolves(b, client.orgs, e)
    ensures GrantsAtMost(b, client.orgs, e, old(client.Pairs()), client.Pairs())
    ensures err.None? ==> GrantsAll(b, client.orgs, e, client.Pairs())
    ensures err.None? ==> client.public == PublicGranted(b, old(client.public), [e])
    ensures client.public ==
            if e.IsBare() then FlagFirst(b, old(client.public), e, true, flagged) else old(client.public)
  {
    flagged := 0;
    var found := FindService(b.services, e.service);
    if found.None? {
      err := Some("service does not exist");
      return;
    }
    var s := found.value;
    assert ServiceWellFormed(b, s);
    if !e.IsBare() {
      PublicGrantedOne(b, client.public, s, e);
    }
    if e.orgId != "" && e.plan != "" {
      err := UpdateServiceAccessWithPlanAndOrg(client, s, e);
      FullGrant(b, client.orgs, s, e, old(client.Pairs()), client.Pairs(), err.None?);
      return;
    }
    if e.orgId == "" && e.plan == "" {
      err, flagged := UpdateToVisibilityServicePlan(client, s, true);
      BareFlags(b, old(client.public), s, e, flagged);
      return;
    }
    err := UpdateOneSided(client, b, s, e);
  }

  lemma BareFlags(b: Broker, m: map<string, bool>, s: Service, e: Entry, n: nat)
    requires FindService(b.services, e.service) == Some(s) && e.IsBare() && n <= |s.plans|
    ensures FlagFirst(b, m, e, true, n) == Flag(m, s.plans[..n], true)
    ensures n == |s.plans| ==> FlagFirst(b, m, e, true, n) == PublicGranted(b, m, [e])
  {
    PublicGrantedOne(b, m, s, e);
    assert s.plans[..|s.plans|] == s.plans;
  }

  /** Finds and grants what a one-sided entry stands for. */
  method UpdateOneSided(client: Marketplace, b: Broker, s: Service, e: Entry) returns (err: Option<string>)
    requires client.Valid() && FindService(b.services, e.service) == Some(s) && ServiceWellFormed(b, s)
    requires e.IsOneSided()
    modifies client`rows, client`next, client`faults, client`sent
    ensures client.Valid() && client.faults >= old(client.faults)
    ensures err.None? ==> client.faults == old(client.faults) && Resolves(b, client.orgs, e)
    ensures err.Some? ==> client.faults > old(client.faults) || !Resolves(b, client.orgs, e)
    ensures GrantsAtMost(b, client.orgs, e, old(client.Pairs()), client.Pairs())
    ensures err.None? ==> GrantsAll(b, client.orgs, e, client.Pairs())
  {
    var ts: seq<Entry> := [];
    if e.orgId != "" {
      ts := GetServicesAccessDefWithOnlyOrg(s, e);
    }
    if e.plan != "" {
      var r := GetServicesAccessDefWithOnlyPlan(client, e);
      if r.Failure? {
        return Some(r.error);
      }
      ts := r.value;
    }
    assert ts == Expansion(b, client.orgs, e);
    err := GrantTargets(client, b, s, e, ts);
  }

  /** Grants what a one-sided entry stands for. */
  method GrantTargets(client: Marketplace, b: Broker, s: Service, e: Entry, ts: seq<Entry>)
    returns (err: Option<string>)
    requires client.Valid() && FindService(b.services, e.service) == Some(s) && ServiceWellFormed(b, s)
    requires e.IsOneSided() && ts == Expansion(b, client.orgs, e)
    modifies client`rows, client`next, client`faults, client`sent
    ensures client.Valid() && client.faults >= old(client.faults)
    ensures err.None? ==> client.faults == old(client.faults) && Resolves(b, client.orgs, e)
    ensures err.Some? ==> client.faults > old(client.faults) || !Resolves(b, client.orgs, e)
    ensures GrantsAtMost(b, client.orgs, e, old(client.Pairs()), client.Pairs())
    ensures err.None? ==> GrantsAll(b, client.orgs, e, client.Pairs())
  {
    forall t
      ensures t in ts <==> IsExpansion(b, client.orgs, e, t)
    {
      ExpansionHolds(b, client.orgs, e, t);
    }
    assert AreTargets(s, client.orgs, e, ts);
    TargetsResolve(b, client.orgs, s, e, ts);
    forall x
      ensures NamedAmong(s, ts, |ts|, x) <==> Denotes(b, client.orgs, e, x)
    {
      TargetsDenote(b, client.orgs, s, e, ts, x);
    }
    ghost var n;
    err, n := GrantEach(client, s, ts);
    NamedAmongMore(s, ts, n);
  }

  lemma NamedAmongMore(s: Service, ts: seq<Entry>, n: nat)
    requires n <= |ts|
    ensures forall x :: NamedAmong(s, ts, n, x) ==> NamedAmong(s, ts, |ts|, x)
  {
  }

  lemma NamesIsDenotes(b: Broker, orgs: seq<string>, s: Service, t: Entry, x: Pair)
    requires FindService(b.services, t.service) == Some(s) && t.IsFull()
    ensures Names(s, t, x) <==> Denotes(b, orgs, t, x)
  {
  }

  /** ts is what the create path grants for a one-sided entry. */
  ghost predicate AreTargets(s: Service, orgs: seq<string>, e: Entry, ts: seq<Entry>) {
    forall t :: t in ts <==>
      && t.service == e.service
      && (if e.plan != "" then t.plan == e.plan && t.orgId in orgs
          else t.orgId == e.orgId && exists p :: p in s.plans && t.plan == p.name)
  }

  lemma TargetsResolve(b: Broker, orgs: seq<string>, s: Service, e: Entry, ts: seq<Entry>)
    requires FindService(b.services, e.service) == Some(s) && ServiceWellFormed(b, s) && e.IsOneSided()
    requires AreTargets(s, orgs, e, ts)
    ensures (forall t :: t in ts ==> Grantable(s, orgs, t)) <==> Resolves(b, orgs, e)
  {
    if forall t :: t in ts ==> Grantable(s, orgs, t) {
      if e.plan != "" && orgs != [] {
        assert Entry(e.service, e.plan, orgs[0]) in ts;
      }
      if e.orgId != "" && s.plans != [] {
        assert Entry(e.service, s.plans[0].name, e.orgId) in ts;
      }
    }
  }

  lemma TargetsDenote(b: Broker, orgs: seq<string>, s: Service, e: Entry, ts: seq<Entry>, x: Pair)
    requires FindService(b.services, e.service) == Some(s) && ServiceWellFormed(b, s) && e.IsOneSided()
    requires AreTargets(s, orgs, e, ts)
    ensures NamedAmong(s, ts, |ts|, x) <==> Denotes(b, orgs, e, x)
  {
    if NamedAmong(s, ts, |ts|, x) {
      var j :| 0 <= j < |ts| && Names(s, ts[j], x);
      assert ts[j] in ts;
      var p := FindPlan(s.guid, s.plans, ts[j].plan).value;
      assert Selects(s, e, p) && InOrgs(orgs, e, x.1);
    }
    if Denotes(b, orgs, e, x) {
      DenotedIsTarget(b, orgs, s, e, ts, x);
    }
  }

  lemma DenotedIsTarget(b: Broker, orgs: seq<string>, s: Service, e: Entry, ts: seq<Entry>, x: Pair)
    requires FindService(b.services, e.service) == Some(s) && ServiceWellFormed(b, s) && e.IsOneSided()
    requires AreTargets(s, orgs, e, ts) && Denotes(b, orgs, e, x)
    ensures NamedAmong(s, ts, |ts|, x)
  {
    var p :| p in s.plans && p.guid == x.0 && Selects(s, e, p);
    var t := Entry(e.service, if e.plan != "" then e.plan else p.name, x.1);
    assert t in ts;
    var j :| 0 <= j < |ts| && ts[j] == t;
    assert Names(s, ts[j], x);
  }

  /** x is denoted by a non-bare entry among the first n. */
  ghost predicate GrantedAmong(b: Broker, orgs: seq<string>, es: seq<Entry>, n: nat, x: Pair)
    requires n <= |es|
  {
    exists j :: 0 <= j < n && !es[j].IsBare() && Denotes(b, orgs, es[j], x)
  }

  /** pairs are the ones there were before and those the first n entries grant. */
  ghost predicate GrantsMatch(b: Broker, orgs: seq<string>, es: seq<Entry>, n: nat, before: set<Pair>, pairs: set<Pair>)
    requires n <= |es|
  {
    forall x :: x in pairs <==> x in before || GrantedAmong(b, orgs, es, n, x)
  }

  /** From the grants of the first i entries to those of the first i + 1, or part of the way. */
  lemma GrantsNext(b: Broker, orgs: seq<string>, es: seq<Entry>, i: nat, before: set<Pair>, pairs: set<Pair>,
          pairs': set<Pair>)
    requires i < |es| && GrantsMatch(b, orgs, es, i, before, pairs) && GrantsAtMost(b, orgs, es[i], pairs, pairs')
    ensures forall x :: x in before || GrantedAmong(b, orgs, es, i, x) ==> x in pairs'
    ensures forall x :: x in pairs' ==> x in before || GrantedAmong(b, orgs, es, i + 1, x)
    ensures GrantsAll(b, orgs, es[i], pairs') ==> GrantsMatch(b, orgs, es, i + 1, before, pairs')
  {
  }

  lemma PublicGrantedNext(b: Broker, m: map<string, bool>, es: seq<Entry>, i: nat)
    requires i < |es|
    ensures PublicGranted(b, PublicGranted(b, m, es[..i]), [es[i]]) == PublicGranted(b, m, es[..i + 1])
  {
    assert es[..i + 1][..i] == es[..i] && [es[i]][..0] == [];
  }

  ghost predicate AllResolve(b: Broker, orgs: seq<string>, es: seq<Entry>) {
    forall e :: e in es ==> Resolves(b, orgs, e)
  }

  lemma AllResolveNext(b: Broker, orgs: seq<string>, es: seq<Entry>, i: nat)
    requires i < |es| && AllResolve(b, orgs, es[..i]) && Resolves(b, orgs, es[i])
    ensures AllResolve(b, orgs, es[..i + 1])
  {
  }

  /** The flags after the create path has done all of the first k entries and flagged the first n plans
      of entry k. */
  function GrantedUpTo(b: Broker, m: map<string, bool>, es: seq<Entry>, k: nat, n: nat): map<string, bool>
    requires k <= |es|
  {
    var before := PublicGranted(b, m, es[..k]);
    if k == |es| || !es[k].IsBare() then before else FlagFirst(b, before, es[k], true, n)
  }

  /** updateServicesAccess.  On success the visibilities are the old ones and the denotation of the
      non-bare entries, and the plans of bare services are public.  On an error at entry k visibilities
      and flags lie between the grants of the entries before k and those of the entries up to k. */
  method UpdateServicesAccess(client: Marketplace, b: Broker, es: seq<Entry>)
    returns (err: Option<string>, ghost k: nat, ghost flagged: nat)
    requires client.Valid() && WellFormed(b)
    modifies client`rows, client`next, client`public, client`faults, client`sent
    ensures client.Valid() && client.faults >= old(client.faults)
    ensures err.None? ==> client.faults == old(client.faults) && AllResolve(b, client.orgs, es)
    ensures err.Some? ==> client.faults > old(client.faults) || !AllResolve(b, client.orgs, es)
    ensures err.None? ==> k == |es| && client.public == PublicGranted(b, old(client.public), es)
    ensures err.Some? ==> k < |es|
    ensures client.public == GrantedUpTo(b, old(client.public), es, k, flagged)
    ensures forall x :: x in old(client.Pairs()) || GrantedAmong(b, client.orgs, es, k, x) ==> x in client.Pairs()
    ensures forall x :: x in client.Pairs() ==>
              x in old(client.Pairs()) || GrantedAmong(b, client.orgs, es, if k < |es| then k + 1 else k, x)
  {
    for i := 0 to |es|
      invariant client.Valid() && client.faults == old(client.faults)
      invariant AllResolve(b, client.orgs, es[..i])
      invariant client.public == PublicGranted(b, old(client.public), es[..i])
      invariant GrantsMatch(b, client.orgs, es, i, old(client.Pairs()), client.Pairs())
    {
      ghost var pairs := client.Pairs();
      err, flagged := UpdateServiceAccess(client, b, es[i]);
      GrantsNext(b, client.orgs, es, i, old(client.Pairs()), pairs, client.Pairs());
      if err.Some? {
        assert es[i] in es;
        k := i;
        return;
      }
      PublicGrantedNext(b, old(client.public), es, i);
      AllResolveNext(b, client.orgs, es, i);
    }
    assert es[..|es|] == es;
    return None, |es|, 0;
  }

  /** The plan is granted to everyone by one of the entries. */
  ghost predicate MadePublic(b: Broker, es: seq<Entry>, s: Service) {
    exists e :: e in es && e.IsBare() && FindService(b.services, e.service) == Some(s)
  }

  lemma {:induction false} PublicGrantedAt(b: Broker, m: map<string, bool>, es: seq<Entry>, s: Service, p: Plan)
    requires WellFormed(b) && Owns(b, s, p)
    ensures var granted := PublicGranted(b, m, es);
            if MadePublic(b, es, s) then p.guid in granted && granted[p.guid]
            else (p.guid in granted <==> p.guid in m) && (p.guid in m ==> granted[p.guid] == m[p.guid])
  {
    if es != [] {
      var init, e := es[..|es| - 1], es[|es| - 1];
      assert es == init + [e];
      PublicGrantedAt(b, m, init, s, p);
      var found := FindService(b.services, e.service);
      if found.Some? && e.IsBare() {
        FlagAt(PublicGranted(b, m, init), found.value.plans, true, p.guid);
        if found.value != s {
          OtherServicePlan(b, s, p, found.value);
        }
      }
    }
  }

  // ----- Granting again -----

  ghost predicate AllFlagged(m: map<string, bool>, plans: seq<Plan>) {
    forall p :: p in plans ==> p.guid in m && m[p.guid]
  }

  lemma {:induction false} FlaggedStays(m: map<string, bool>, plans: seq<Plan>)
    requires AllFlagged(m, plans)
    ensures Flag(m, plans, true) == m
  {
    if plans != [] {
      FlaggedStays(m, plans[..|plans| - 1]);
      assert plans[|plans| - 1] in plans;
    }
  }

  /** Every plan of a service with a bare entry is public once the entries have been granted. */
  lemma {:induction false} GrantedFlagged(b: Broker, m: map<string, bool>, es: seq<Entry>, e: Entry)
    requires e in es && e.IsBare() && FindService(b.services, e.service).Some?
    ensures AllFlagged(PublicGranted(b, m, es), FindService(b.services, e.service).value.plans)
  {
    var init, last := es[..|es| - 1], es[|es| - 1];
    assert es == init + [last];
    var before := PublicGranted(b, m, init);
    forall p | p in FindService(b.services, e.service).value.plans
      ensures var granted := PublicGranted(b, m, es); p.guid in granted && granted[p.guid]
    {
      if e in init {
        GrantedFlagged(b, m, init, e);
      }
      var found := FindService(b.services, last.service);
      if found.Some? && last.IsBare() {
        FlagAt(before, found.value.plans, true, p.guid);
      }
    }
  }

  lemma {:induction false} GrantedStays(b: Broker, m: map<string, bool>, es: seq<Entry>, k: nat)
    requires k <= |es|
    requires forall e :: e in es && e.IsBare() && FindService(b.services, e.service).Some? ==>
               AllFlagged(m, FindService(b.services, e.service).value.plans)
    ensures PublicGranted(b, m, es[..k]) == m
  {
    if k > 0 {
      GrantedStays(b, m, es, k - 1);
      assert es[..k][..k - 1] == es[..k - 1];
      var e := es[k - 1];
      assert e in es;
      if FindService(b.services, e.service).Some? && e.IsBare() {
        FlaggedStays(m, FindService(b.services, e.service).value.plans);
      }
    }
  }

  /** However far a second run gets, it changes no flag. */
  lemma FlagsStay(b: Broker, m: map<string, bool>, es: seq<Entry>, k: nat, n: nat)
    requires k <= |es|
    ensures var once := PublicGranted(b, m, es); GrantedUpTo(b, once, es, k, n) == once
  {
    var once := PublicGranted(b, m, es);
    forall e | e in es && e.IsBare() && FindService(b.services, e.service).Some?
      ensures AllFlagged(once, FindService(b.services, e.service).value.plans)
    {
      GrantedFlagged(b, m, es, e);
    }
    GrantedStays(b, once, es, k);
    if k < |es| && es[k].IsBare() {
      assert es[k] in es;
      var found := FindService(b.services, es[k].service);
      if found.Some? && n <= |found.value.plans| {
        FlaggedStays(once, found.value.plans[..n]);
      }
    }
  }

  /** Two runs.  Once the first has succeeded, the second changes neither a visibility nor a flag, also
      when a lost request makes it fail. */
  method GrantingAgainChangesNothing(client: Marketplace, b: Broker, es: seq<Entry>)
    returns (first: Option<string>, second: Option<string>, ghost pairs: set<Pair>, ghost public: map<string, bool>)
    requires client.Valid() && WellFormed(b)
    modifies client`rows, client`next, client`public, client`faults, client`sent
    ensures client.Valid()
    ensures first.None? ==> public == PublicGranted(b, old(client.public), es)
                            && GrantsMatch(b, client.orgs, es, |es|, old(client.Pairs()), pairs)
    ensures first.None? ==> client.Pairs() == pairs && client.public == public
    ensures first.None? && second.Some? ==> client.faults > old(client.faults)
  {
    ghost var k, flagged;
    first, k, flagged := UpdateServicesAccess(client, b, es);
    pairs, public, second := client.Pairs(), client.public, None;
    if first.None? {
      FlagsStay(b, old(client.public), es, 0, 0);
      ghost var k', flagged';
      second, k', flagged' := UpdateServicesAccess(client, b, es);
      FlagsStay(b, old(client.public), es, k', flagged');
    }
  }

  // ----- Diff -----

  /** containsServiceAccess */
  method ContainsServiceAccess(es: seq<Entry>, e: Entry) returns (found: bool)
    ensures found <==> e in es
  {
    for i := 0 to |es|
      invariant e !in es[..i]
    {
      if es[i].orgId == e.orgId && es[i].plan == e.plan && es[i].service == e.service {
        return true;
      }
    }
    return false;
  }

  /** diffServicesAccess: the two set differences. */
  method DiffServicesAccess(src: seq<Entry>, dst: seq<Entry>) returns (toDelete: seq<Entry>, toCreate: seq<Entry>)
    ensures Entries(toDelete) == Entries(src) - Entries(dst)
    ensures Entries(toCreate) == Entries(dst) - Entries(src)
  {
    toDelete, toCreate := [], [];
    for i := 0 to |src|
      invariant Entries(toDelete) == Entries(src[..i]) - Entries(dst)
    {
      var kept := ContainsServiceAccess(dst, src[i]);
      assert Entries(src[..i + 1]) == Entries(src[..i]) + {src[i]};
      if !kept {
        assert Entries(toDelete + [src[i]]) == Entries(toDelete) + {src[i]};
        toDelete := toDelete + [src[i]];
      }
    }
    for i := 0 to |dst|
      invariant Entries(toCreate) == Entries(dst[..i]) - Entries(src)
    {
      var known := ContainsServiceAccess(src, dst[i]);
      assert Entries(dst[..i + 1]) == Entries(dst[..i]) + {dst[i]};
      if !known {
        assert Entries(toCreate + [dst[i]]) == Entries(toCreate) + {dst[i]};
        toCreate := toCreate + [dst[i]];
      }
    }
    assert src[..|src|] == src && dst[..|dst|] == dst;
  }
}
