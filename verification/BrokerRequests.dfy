/** How many requests reading service access back sends, from the catalog, the orgs and the visibilities
    alone. */
module BrokerRequests {
  import opened ServiceAccess
  import opened AccessTheory

  /** The searches isPlanInAllOrgs makes: one an org, up to the first that lacks the plan. */
  ghost function Searches(orgs: seq<string>, pairs: set<Pair>, plan: string): nat {
    if orgs == [] then 0
    else if (plan, orgs[0]) in pairs then 1 + Searches(orgs[1..], pairs, plan)
    else 1
  }

  lemma {:induction false} SearchesAfter(orgs: seq<string>, pairs: set<Pair>, plan: string, i: nat)
    requires i <= |orgs| && Everywhere(orgs[..i], pairs, plan)
    ensures Searches(orgs, pairs, plan) == i + Searches(orgs[i..], pairs, plan)
  {
    if i == 0 {
      assert orgs[0..] == orgs;
    } else {
      assert orgs[0] == orgs[..i][0] && orgs[0] in orgs[..i];
      assert orgs[1..][..i - 1] == orgs[..i][1..];
      SearchesAfter(orgs[1..], pairs, plan, i - 1);
      assert orgs[1..][i - 1..] == orgs[i..];
    }
  }

  /** Listing the orgs and the searches. */
  ghost function CheckRequests(orgs: seq<string>, pairs: set<Pair>, plan: string): nat {
    1 + Searches(orgs, pairs, plan)
  }

  /** A plan that is not in all orgs takes one request more, for its visibilities. */
  ghost function PlanRequests(orgs: seq<string>, pairs: set<Pair>, plan: string): nat {
    CheckRequests(orgs, pairs, plan) + (if Everywhere(orgs, pairs, plan) then 0 else 1)
  }

  /** The plans in order, up to the first public one. */
  ghost function PlansRequests(plans: seq<Plan>, orgs: seq<string>, pairs: set<Pair>): nat {
    if plans == [] || plans[0].public then 0
    else PlanRequests(orgs, pairs, plans[0].guid) + PlansRequests(plans[1..], orgs, pairs)
  }

  lemma {:induction false} PlansRequestsAfter(plans: seq<Plan>, orgs: seq<string>, pairs: set<Pair>, i: nat)
    requires i < |plans| && forall j :: 0 <= j < i ==> !plans[j].public
    ensures var plan := plans[i];
            PlansRequests(plans[i..], orgs, pairs) ==
            if plan.public then 0
            else PlanRequests(orgs, pairs, plan.guid) + PlansRequests(plans[i + 1..], orgs, pairs)
  {
    assert plans[i..][1..] == plans[i + 1..];
  }

  ghost function ServicesRequests(services: seq<Service>, orgs: seq<string>, pairs: set<Pair>): nat {
    if services == [] then 0
    else
      ServicesRequests(services[..|services| - 1], orgs, pairs)
      + PlansRequests(services[|services| - 1].plans, orgs, pairs)
  }

  lemma ServicesRequestsNext(services: seq<Service>, orgs: seq<string>, pairs: set<Pair>, i: nat)
    requires i < |services|
    ensures ServicesRequests(services[..i + 1], orgs, pairs) ==
            ServicesRequests(services[..i], orgs, pairs) + PlansRequests(services[i].plans, orgs, pairs)
  {
    assert services[..i + 1][..i] == services[..i];
  }

  /** All the requests are sent, or those up to the one that is lost. */
  ghost predicate Sends(before: nat, after: nat, requests: nat, ok: bool) {
    if ok then after == before + requests else before < after <= before + requests
  }

  /** All the requests are sent, or the last one sent is for service n. */
  ghost predicate SendsUpTo(services: seq<Service>, orgs: seq<string>, pairs: set<Pair>, n: nat,
                            before: nat, after: nat)
    requires n <= |services|
  {
    if n == |services| then after == before + ServicesRequests(services, orgs, pairs)
    else
      before + ServicesRequests(services[..n], orgs, pairs) < after
      <= before + ServicesRequests(services[..n + 1], orgs, pairs)
  }

  /** Expanding entries lists the orgs once for each entry with a plan. */
  function ExpandRequests(es: seq<Entry>): nat {
    if es == [] then 0 else ExpandRequests(es[..|es| - 1]) + (if es[|es| - 1].plan != "" then 1 else 0)
  }

  lemma {:induction false} ExpandRequestsUpTo(es: seq<Entry>, i: nat)
    requires i < |es|
    ensures ExpandRequests(es[..i + 1]) == ExpandRequests(es[..i]) + (if es[i].plan != "" then 1 else 0)
    ensures ExpandRequests(es[..i + 1]) <= ExpandRequests(es)
    decreases |es|
  {
    assert es[..i + 1][..i] == es[..i];
    if i + 1 < |es| {
      var init := es[..|es| - 1];
      assert init[..i + 1] == es[..i + 1];
      ExpandRequestsUpTo(init, i);
    } else {
      assert es[..i + 1] == es;
    }
  }

  /** A service that is not the last one is read before all are. */
  lemma {:induction false} ServicesRequestsUpTo(services: seq<Service>, orgs: seq<string>, pairs: set<Pair>, n: nat)
    requires n <= |services|
    ensures ServicesRequests(services[..n], orgs, pairs) <= ServicesRequests(services, orgs, pairs)
    decreases |services|
  {
    if n < |services| {
      var init := services[..|services| - 1];
      assert init[..n] == services[..n];
      ServicesRequestsUpTo(init, orgs, pairs, n);
    } else {
      assert services[..n] == services;
    }
  }
}
