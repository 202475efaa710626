/** The service-access entries of resources/service_broker.go and what they mean: an entry stands for
    a set of (plan guid, org guid) pairs. */
module ServiceAccess {
  import opened Wrappers

  datatype Plan = Plan(guid: string, name: string, serviceGuid: string, public: bool)

  /** A service offering; its name is what the Cloud Controller calls its label. */
  datatype Service = Service(guid: string, name: string, plans: seq<Plan>)

  /** A broker as read from the Cloud Controller at one moment. */
  datatype Broker = Broker(name: string, services: seq<Service>)

  /** A configured or retrieved entry; "" stands for an absent plan or org. */
  datatype Entry = Entry(service: string, plan: string, orgId: string) {
    predicate IsBare() { plan == "" && orgId == "" }

    /** Exactly one of plan and org is named. */
    predicate IsOneSided() { (plan == "") != (orgId == "") }

    /** Both plan and org are named. */
    predicate IsFull() { plan != "" && orgId != "" }
  }

  type Pair = (string, string)

  // ----- Looking names up -----

  /** getService: the first service with that label or guid. */
  function FindService(services: seq<Service>, name: string): (r: Option<Service>)
    ensures r.Some? ==> r.value in services && (r.value.name == name || r.value.guid == name)
  {
    if services == [] then None
    else if services[0].name == name || services[0].guid == name then Some(services[0])
    else FindService(services[1..], name)
  }

  /** getServicePlan: the first plan with that name or guid that belongs to the service. */
  function FindPlan(serviceGuid: string, plans: seq<Plan>, name: string): (r: Option<Plan>)
    ensures r.Some? ==> r.value in plans && (r.value.name == name || r.value.guid == name)
  {
    if plans == [] then None
    else if (plans[0].name == name || plans[0].guid == name) && plans[0].serviceGuid == serviceGuid then Some(plans[0])
    else FindPlan(serviceGuid, plans[1..], name)
  }

  predicate ServiceNamed(s: Service, name: string) { s.name == name || s.guid == name }

  /** The first service so named is found, and nothing only if none is so named. */
  lemma {:induction false} FindsFirstService(services: seq<Service>, name: string)
    ensures match FindService(services, name)
            case Some(s) => exists i :: 0 <= i < |services| && services[i] == s && ServiceNamed(s, name)
                                        && forall j :: 0 <= j < i ==> !ServiceNamed(services[j], name)
            case None => forall s :: s in services ==> !ServiceNamed(s, name)
  {
    if services != [] && !ServiceNamed(services[0], name) {
      FindsFirstService(services[1..], name);
      if FindService(services, name).Some? {
        var s := FindService(services, name).value;
        var i :| 0 <= i < |services| - 1 && services[1..][i] == s && ServiceNamed(s, name)
                 && forall j :: 0 <= j < i ==> !ServiceNamed(services[1..][j], name);
        assert services[i + 1] == s;
        forall j | 0 <= j < i + 1
          ensures !ServiceNamed(services[j], name)
        {
          assert j > 0 ==> services[j] == services[1..][j - 1];
        }
      }
    }
  }

  predicate PlanNamed(serviceGuid: string, p: Plan, name: string) {
    (p.name == name || p.guid == name) && p.serviceGuid == serviceGuid
  }

  /** The first plan of the service so named is found, and nothing only if none is so named. */
  lemma {:induction false} FindsFirstPlan(serviceGuid: string, plans: seq<Plan>, name: string)
    ensures match FindPlan(serviceGuid, plans, name)
            case Some(p) => exists i :: 0 <= i < |plans| && plans[i] == p && PlanNamed(serviceGuid, p, name)
                                        && forall j :: 0 <= j < i ==> !PlanNamed(serviceGuid, plans[j], name)
            case None => forall p :: p in plans ==> !PlanNamed(serviceGuid, p, name)
  {
    if plans != [] && !PlanNamed(serviceGuid, plans[0], name) {
      FindsFirstPlan(serviceGuid, plans[1..], name);
      if FindPlan(serviceGuid, plans, name).Some? {
        var p := FindPlan(serviceGuid, plans, name).value;
        var i :| 0 <= i < |plans| - 1 && plans[1..][i] == p && PlanNamed(serviceGuid, p, name)
                 && forall j :: 0 <= j < i ==> !PlanNamed(serviceGuid, plans[1..][j], name);
        assert plans[i + 1] == p;
        forall j | 0 <= j < i + 1
          ensures !PlanNamed(serviceGuid, plans[j], name)
        {
          assert j > 0 ==> plans[j] == plans[1..][j - 1];
        }
      }
    }
  }

  // ----- What the Cloud Controller guarantees -----

  ghost predicate Owns(b: Broker, s: Service, p: Plan) {
    s in b.services && p in s.plans
  }

  /** Plans have guids and names, the name of a plan finds it, and no plan is listed twice. */
  ghost predicate PlansWellFormed(s: Service) {
    && (forall p :: p in s.plans ==> p.guid != "" && p.name != "" && FindPlan(s.guid, s.plans, p.name) == Some(p))
    && (forall i, j :: 0 <= i < j < |s.plans| ==> s.plans[i] != s.plans[j])
  }

  ghost predicate ServiceWellFormed(b: Broker, s: Service) {
    s.guid != "" && FindService(b.services, s.name) == Some(s) && PlansWellFormed(s)
  }

  /** Names are unambiguous, and a plan guid belongs to one plan of one service. */
  ghost predicate WellFormed(b: Broker) {
    && (forall s :: s in b.services ==> ServiceWellFormed(b, s))
    && (forall s, t, p, q :: Owns(b, s, p) && Owns(b, t, q) && p.guid == q.guid ==> s == t && p == q)
  }

  /** Org guids are not empty and all have the same length. */
  ghost predicate OrgsWellFormed(orgs: seq<string>) {
    && (forall o :: o in orgs ==> o != "")
    && (forall o, o' :: o in orgs && o' in orgs ==> |o| == |o'|)
  }

  // ----- Denotation -----

  ghost predicate Selects(s: Service, e: Entry, p: Plan) {
    e.plan == "" || FindPlan(s.guid, s.plans, e.plan) == Some(p)
  }

  ghost predicate InOrgs(orgs: seq<string>, e: Entry, o: string) {
    if e.orgId == "" then o in orgs else o == e.orgId
  }

  ghost predicate DenotesIn(s: Service, orgs: seq<string>, e: Entry, x: Pair) {
    InOrgs(orgs, e, x.1) && exists p :: p in s.plans && p.guid == x.0 && Selects(s, e, p)
  }

  /** The pairs an entry stands for: its plan, or every plan of its service, in its org, or in every org. */
  ghost predicate Denotes(b: Broker, orgs: seq<string>, e: Entry, x: Pair) {
    var found := FindService(b.services, e.service);
    found.Some? && DenotesIn(found.value, orgs, e, x)
  }

  ghost predicate DenotedBy(b: Broker, orgs: seq<string>, es: set<Entry>, x: Pair) {
    exists e :: e in es && Denotes(b, orgs, e, x)
  }

  /** One of the (service, plan, org) entries that getFullServiceAccessDef makes of e.  A plan is
      expanded to all orgs whether or not the entry names an org, and a bare entry to nothing. */
  ghost predicate IsExpansion(b: Broker, orgs: seq<string>, e: Entry, t: Entry) {
    var found := FindService(b.services, e.service);
    && found.Some? && t.service == e.service
    && if e.plan != "" then t.plan == e.plan && t.orgId in orgs
       else e.orgId != "" && t.orgId == e.orgId && exists p :: p in found.value.plans && t.plan == p.name
  }

  ghost predicate IsExpansionOf(b: Broker, orgs: seq<string>, es: set<Entry>, t: Entry) {
    exists e :: e in es && IsExpansion(b, orgs, e, t)
  }
}
