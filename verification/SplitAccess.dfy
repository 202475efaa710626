/** Collapsing the (plan, org) entries of one service: an org that has as many entries as the service
    has plans is given one org-only entry instead. */
module SplitAccess {
  import opened ServiceAccess

  /** getServicesAccessForOrg */
  function ForOrg(es: seq<Entry>, org: string): seq<Entry> {
    if es == [] then []
    else ForOrg(es[..|es| - 1], org) + (if es[|es| - 1].orgId == org then [es[|es| - 1]] else [])
  }

  method GetServicesAccessForOrg(es: seq<Entry>, org: string) returns (inOrg: seq<Entry>)
    ensures inOrg == ForOrg(es, org)
  {
    inOrg := [];
    for i := 0 to |es|
      invariant inOrg == ForOrg(es[..i], org)
    {
      assert es[..i + 1][..i] == es[..i];
      if es[i].orgId == org {
        inOrg := inOrg + [es[i]];
      }
    }
    assert es[..|es|] == es;
  }

  function Key(e: Entry): string { e.orgId + e.plan }

  ghost predicate Collapses(es: seq<Entry>, numberPlan: nat, org: string) {
    |ForOrg(es, org)| == numberPlan
  }

  /** One of the first n entries has this key and lies in a collapsing org. */
  ghost predicate KeySeen(es: seq<Entry>, numberPlan: nat, n: nat, key: string)
    requires n <= |es|
  {
    exists j :: 0 <= j < n && Key(es[j]) == key && Collapses(es, numberPlan, es[j].orgId)
  }

  /** Entry i is skipped: an earlier entry of a collapsing org has the same key. */
  ghost predicate Skipped(es: seq<Entry>, numberPlan: nat, i: nat)
    requires i < |es|
  {
    KeySeen(es, numberPlan, i, Key(es[i]))
  }

  /** The org-only entry that stands for e. */
  function OrgOnly(e: Entry): Entry { Entry(e.service, "", e.orgId) }

  ghost predicate IsFullAt(es: seq<Entry>, numberPlan: nat, i: nat)
    requires i < |es|
  {
    !Skipped(es, numberPlan, i) && !Collapses(es, numberPlan, es[i].orgId)
  }

  ghost predicate IsOnlyOrgAt(es: seq<Entry>, numberPlan: nat, i: nat)
    requires i < |es|
  {
    !Skipped(es, numberPlan, i) && Collapses(es, numberPlan, es[i].orgId)
  }

  /** e is one of the first n entries, and it is kept. */
  ghost predicate FullAmong(es: seq<Entry>, numberPlan: nat, n: nat, e: Entry)
    requires n <= |es|
  {
    exists i :: 0 <= i < n && IsFullAt(es, numberPlan, i) && e == es[i]
  }

  /** e is the org-only entry put in place of one of the first n entries. */
  ghost predicate OnlyOrgAmong(es: seq<Entry>, numberPlan: nat, n: nat, e: Entry)
    requires n <= |es|
  {
    exists i :: 0 <= i < n && IsOnlyOrgAt(es, numberPlan, i) && e == OrgOnly(es[i])
  }

  ghost predicate InFull(es: seq<Entry>, numberPlan: nat, e: Entry) {
    FullAmong(es, numberPlan, |es|, e)
  }

  ghost predicate InOnlyOrg(es: seq<Entry>, numberPlan: nat, e: Entry) {
    OnlyOrgAmong(es, numberPlan, |es|, e)
  }

  /** The first n entries that are kept, in order. */
  ghost function FullPart(es: seq<Entry>, numberPlan: nat, n: nat): seq<Entry>
    requires n <= |es|
  {
    if n == 0 then []
    else FullPart(es, numberPlan, n - 1) + (if IsFullAt(es, numberPlan, n - 1) then [es[n - 1]] else [])
  }

  /** The org-only entries put in place of the first n entries, in order: one for each entry that is
      collapsed, so an org with several plans is repeated. */
  ghost function OnlyOrgPart(es: seq<Entry>, numberPlan: nat, n: nat): seq<Entry>
    requires n <= |es|
  {
    if n == 0 then []
    else OnlyOrgPart(es, numberPlan, n - 1) + (if IsOnlyOrgAt(es, numberPlan, n - 1) then [OrgOnly(es[n - 1])] else [])
  }

  /** What the two lists hold. */
  lemma {:induction false} PartsHold(es: seq<Entry>, numberPlan: nat, n: nat)
    requires n <= |es|
    ensures forall e :: e in FullPart(es, numberPlan, n) <==> FullAmong(es, numberPlan, n, e)
    ensures forall e :: e in OnlyOrgPart(es, numberPlan, n) <==> OnlyOrgAmong(es, numberPlan, n, e)
  {
    if n > 0 {
      PartsHold(es, numberPlan, n - 1);
      OneMore(es, numberPlan, n - 1);
    }
  }

  /** splitServiceAccess, on any input: the two lists, in order and with repetitions. */
  method SplitServiceAccess(es: seq<Entry>, numberPlan: nat) returns (onlyWithOrg: seq<Entry>, full: seq<Entry>)
    ensures full == FullPart(es, numberPlan, |es|)
    ensures onlyWithOrg == OnlyOrgPart(es, numberPlan, |es|)
  {
    onlyWithOrg, full := [], [];
    var orgs: set<string> := {};
    for i := 0 to |es|
      invariant SeenKeys(es, numberPlan, i, orgs)
      invariant full == FullPart(es, numberPlan, i)
      invariant onlyWithOrg == OnlyOrgPart(es, numberPlan, i)
    {
      SeenNext(es, numberPlan, i, orgs);
      PartsNext(es, numberPlan, i);
      if Key(es[i]) in orgs {
        assert orgs + {Key(es[i])} == orgs;
        continue;
      }
      var inOrg := GetServicesAccessForOrg(es, es[i].orgId);
      if |inOrg| == numberPlan {
        onlyWithOrg := onlyWithOrg + [OrgOnly(es[i])];
        orgs := orgs + {Key(es[i])};
        continue;
      }
      full := full + [es[i]];
    }
  }

  /** orgs are the keys seen among the first n entries. */
  ghost predicate SeenKeys(es: seq<Entry>, numberPlan: nat, n: nat, orgs: set<string>)
    requires n <= |es|
  {
    forall key :: key in orgs <==> KeySeen(es, numberPlan, n, key)
  }

  lemma SeenNext(es: seq<Entry>, numberPlan: nat, i: nat, orgs: set<string>)
    requires i < |es| && SeenKeys(es, numberPlan, i, orgs)
    ensures Skipped(es, numberPlan, i) <==> Key(es[i]) in orgs
    ensures SeenKeys(es, numberPlan, i + 1,
                     if Collapses(es, numberPlan, es[i].orgId) then orgs + {Key(es[i])} else orgs)
  {
    OneMore(es, numberPlan, i);
  }

  lemma PartsNext(es: seq<Entry>, numberPlan: nat, i: nat)
    requires i < |es|
    ensures var skipped, whole := Skipped(es, numberPlan, i), Collapses(es, numberPlan, es[i].orgId);
            && FullPart(es, numberPlan, i + 1) ==
               (if skipped || whole then FullPart(es, numberPlan, i) else FullPart(es, numberPlan, i) + [es[i]])
            && OnlyOrgPart(es, numberPlan, i + 1) ==
               (if skipped || !whole then OnlyOrgPart(es, numberPlan, i)
                else OnlyOrgPart(es, numberPlan, i) + [OrgOnly(es[i])])
  {
  }

  /** What entry i adds. */
  lemma OneMore(es: seq<Entry>, numberPlan: nat, i: nat)
    requires i < |es|
    ensures forall key :: KeySeen(es, numberPlan, i + 1, key) <==>
              KeySeen(es, numberPlan, i, key) || (key == Key(es[i]) && Collapses(es, numberPlan, es[i].orgId))
    ensures forall e :: FullAmong(es, numberPlan, i + 1, e) <==>
              FullAmong(es, numberPlan, i, e) || (e == es[i] && IsFullAt(es, numberPlan, i))
    ensures forall e :: OnlyOrgAmong(es, numberPlan, i + 1, e) <==>
              OnlyOrgAmong(es, numberPlan, i, e) || (e == OrgOnly(es[i]) && IsOnlyOrgAt(es, numberPlan, i))
  {
    forall key
      ensures KeySeen(es, numberPlan, i + 1, key) <==>
              KeySeen(es, numberPlan, i, key) || (key == Key(es[i]) && Collapses(es, numberPlan, es[i].orgId))
    {
      if key == Key(es[i]) && Collapses(es, numberPlan, es[i].orgId) {
        var last := i;
        assert 0 <= last < i + 1 && Key(es[last]) == key;
      }
    }
  }

  // ----- Counting -----

  function Names(plans: seq<Plan>): set<string> { set p | p in plans :: p.name }

  ghost function PlansAt(es: seq<Entry>, org: string): set<string> {
    set e | e in es && e.orgId == org :: e.plan
  }

  ghost predicate DistinctEntries(es: seq<Entry>) {
    forall i, j :: 0 <= i < j < |es| ==> es[i] != es[j]
  }

  lemma ForOrgLast(init: seq<Entry>, last: Entry, org: string)
    ensures ForOrg(init + [last], org) == ForOrg(init, org) + (if last.orgId == org then [last] else [])
  {
  }

  lemma PlansAtLast(init: seq<Entry>, last: Entry, org: string)
    ensures PlansAt(init + [last], org) == PlansAt(init, org) + (if last.orgId == org then {last.plan} else {})
  {
  }

  /** An entry that differs from all of init adds a plan. */
  lemma NewPlan(init: seq<Entry>, last: Entry, service: string)
    requires last !in init && last.service == service && forall e :: e in init ==> e.service == service
    ensures last.plan !in PlansAt(init, last.orgId)
  {
  }

  /** Distinct entries of one service: an org has as many entries as it has plans. */
  lemma {:induction false} CountIsPlans(es: seq<Entry>, service: string, org: string)
    requires DistinctEntries(es) && forall e :: e in es ==> e.service == service
    ensures |ForOrg(es, org)| == |PlansAt(es, org)|
  {
    if es != [] {
      var init, last := es[..|es| - 1], es[|es| - 1];
      assert es == init + [last];
      CountIsPlans(init, service, org);
      ForOrgLast(init, last, org);
      PlansAtLast(init, last, org);
      if last.orgId == org {
        NewPlan(init, last, service);
      }
    }
  }

  lemma NamesLast(init: seq<Plan>, last: Plan)
    ensures Names(init + [last]) == Names(init) + {last.name}
  {
    assert forall p :: p in init + [last] <==> p in init || p == last;
  }

  ghost predicate DistinctNames(plans: seq<Plan>) {
    forall i, j :: 0 <= i < j < |plans| ==> plans[i].name != plans[j].name
  }

  lemma NewName(init: seq<Plan>, last: Plan)
    requires DistinctNames(init + [last])
    ensures DistinctNames(init) && last.name !in Names(init)
  {
    var plans := init + [last];
    forall i | 0 <= i < |init|
      ensures init[i].name != last.name
    {
      assert plans[i].name != plans[|init|].name;
    }
    assert forall i :: 0 <= i < |init| ==> plans[i] == init[i];
  }

  lemma {:induction false} NamesCount(plans: seq<Plan>)
    requires DistinctNames(plans)
    ensures |Names(plans)| == |plans|
  {
    if plans != [] {
      var init, last := plans[..|plans| - 1], plans[|plans| - 1];
      assert plans == init + [last];
      NewName(init, last);
      NamesCount(init);
      NamesLast(init, last);
    }
  }

  lemma {:induction false} FullSubset<T>(a: set<T>, b: set<T>)
    requires a <= b && |a| == |b|
    ensures a == b
  {
    assert |b - a| == |b| - |a|;
    assert b - a == {};
  }

  /** Distinct entries of one service, naming plans of that service. */
  ghost predicate OfService(es: seq<Entry>, s: Service) {
    && PlansWellFormed(s) && DistinctEntries(es)
    && (forall e :: e in es ==> e.service == s.name && e.plan in Names(s.plans))
  }

  /** And orgs whose guids have one length. */
  ghost predicate Splittable(es: seq<Entry>, s: Service) {
    OfService(es, s) && forall e, e' :: e in es && e' in es ==> |e.orgId| == |e'.orgId|
  }

  /** Pigeonhole: an org collapses exactly when it has an entry for every plan of the service. */
  lemma CollapsesIffWhole(es: seq<Entry>, s: Service, org: string)
    requires OfService(es, s)
    ensures Collapses(es, |s.plans|, org) <==> PlansAt(es, org) == Names(s.plans)
  {
    CountIsPlans(es, s.name, org);
    NamesCount(s.plans);
    if Collapses(es, |s.plans|, org) {
      FullSubset(PlansAt(es, org), Names(s.plans));
    }
  }

  /** With org guids of one length, keys do not collide. */
  lemma KeysInjective(e: Entry, e': Entry)
    requires Key(e) == Key(e') && |e.orgId| == |e'.orgId| && e.service == e'.service
    ensures e == e'
  {
    var n := |e.orgId|;
    assert Key(e)[..n] == e.orgId && Key(e')[..n] == e'.orgId;
    assert Key(e)[n..] == e.plan && Key(e')[n..] == e'.plan;
  }

  /** So only a repeated entry could be skipped. */
  lemma NothingSkipped(es: seq<Entry>, s: Service, i: nat)
    requires Splittable(es, s) && i < |es|
    ensures !Skipped(es, |s.plans|, i)
  {
    forall j | 0 <= j < i
      ensures Key(es[j]) != Key(es[i])
    {
      assert es[j] in es && es[i] in es;
      if Key(es[j]) == Key(es[i]) {
        KeysInjective(es[j], es[i]);
      }
    }
  }

  /** What becomes of entry i. */
  lemma FateOf(es: seq<Entry>, s: Service, i: nat)
    requires Splittable(es, s) && i < |es|
    ensures IsFullAt(es, |s.plans|, i) <==> PlansAt(es, es[i].orgId) != Names(s.plans)
    ensures IsOnlyOrgAt(es, |s.plans|, i) <==> PlansAt(es, es[i].orgId) == Names(s.plans)
  {
    NothingSkipped(es, s, i);
    CollapsesIffWhole(es, s, es[i].orgId);
  }

  /** The remaining entries are those of orgs that lack a plan. */
  lemma FullResult(es: seq<Entry>, s: Service, e: Entry)
    requires Splittable(es, s)
    ensures InFull(es, |s.plans|, e) <==> e in es && PlansAt(es, e.orgId) != Names(s.plans)
  {
    if e in es {
      var i :| 0 <= i < |es| && es[i] == e;
      FateOf(es, s, i);
    }
    if InFull(es, |s.plans|, e) {
      var i :| 0 <= i < |es| && IsFullAt(es, |s.plans|, i) && e == es[i];
      FateOf(es, s, i);
    }
  }

  /** There is one org-only entry for each org that has every plan. */
  lemma OnlyOrgResult(es: seq<Entry>, s: Service, e: Entry)
    requires Splittable(es, s)
    ensures InOnlyOrg(es, |s.plans|, e) <==>
              e.service == s.name && e.plan == "" && PlansAt(es, e.orgId) == Names(s.plans)
              && exists x :: x in es && x.orgId == e.orgId
  {
    if InOnlyOrg(es, |s.plans|, e) {
      var i :| 0 <= i < |es| && IsOnlyOrgAt(es, |s.plans|, i) && e == OrgOnly(es[i]);
      FateOf(es, s, i);
      assert es[i] in es;
    }
    if x :| x in es && x.orgId == e.orgId && e.service == s.name && e.plan == "" &&
            PlansAt(es, e.orgId) == Names(s.plans) {
      var i :| 0 <= i < |es| && es[i] == x;
      FateOf(es, s, i);
    }
  }

  /** A plan is granted in an org by the input exactly when it is by the full entries that remain or by
      an org-only entry, which stands for every plan. */
  ghost predicate Preserved(es: seq<Entry>, s: Service, plan: string, org: string) {
    Entry(s.name, plan, org) in es <==>
    InFull(es, |s.plans|, Entry(s.name, plan, org)) || InOnlyOrg(es, |s.plans|, Entry(s.name, "", org))
  }

  /** Entry i is not skipped, or its org has an org-only entry anyway. */
  ghost predicate Covered(es: seq<Entry>, s: Service, i: nat)
    requires i < |es|
  {
    Skipped(es, |s.plans|, i) ==>
      exists j :: 0 <= j < |es| && IsOnlyOrgAt(es, |s.plans|, j) && es[j].orgId == es[i].orgId
  }

  lemma CoveredIsPreserved(es: seq<Entry>, s: Service, plan: string, org: string)
    requires OfService(es, s) && plan in Names(s.plans)
    requires forall i :: 0 <= i < |es| ==> Covered(es, s, i)
    ensures Preserved(es, s, plan, org)
  {
    var e := Entry(s.name, plan, org);
    if e in es {
      var i :| 0 <= i < |es| && es[i] == e;
      assert Covered(es, s, i);
      if Skipped(es, |s.plans|, i) {
        var j :| 0 <= j < |es| && IsOnlyOrgAt(es, |s.plans|, j) && es[j].orgId == es[i].orgId;
        assert es[j] in es && OrgOnly(es[j]) == Entry(s.name, "", org);
      } else if IsOnlyOrgAt(es, |s.plans|, i) {
        assert OrgOnly(es[i]) == Entry(s.name, "", org);
      } else {
        assert IsFullAt(es, |s.plans|, i);
      }
    } else {
      forall x | x in es && x.orgId == org
        ensures x.plan != plan
      {
        assert x.plan == plan ==> x == e;
      }
      CollapsesIffWhole(es, s, org);
      assert !Collapses(es, |s.plans|, org);
    }
  }

  lemma PreservedIsCovered(es: seq<Entry>, s: Service, i: nat)
    requires OfService(es, s) && i < |es|
    requires Preserved(es, s, es[i].plan, es[i].orgId)
    ensures Covered(es, s, i)
  {
    var e := es[i];
    assert e in es;
    if InFull(es, |s.plans|, e) {
      var k :| 0 <= k < |es| && IsFullAt(es, |s.plans|, k) && e == es[k];
      assert k == i;
    } else {
      var j :| 0 <= j < |es| && IsOnlyOrgAt(es, |s.plans|, j) && Entry(s.name, "", e.orgId) == OrgOnly(es[j]);
    }
  }

  /** For distinct entries of one service, whatever the org guids: splitting preserves meaning if and
      only if every entry that is skipped belongs to an org with an org-only entry. */
  lemma SplitPreservesIff(es: seq<Entry>, s: Service)
    requires OfService(es, s)
    ensures (forall plan, org :: plan in Names(s.plans) ==> Preserved(es, s, plan, org)) <==>
            forall i :: 0 <= i < |es| ==> Covered(es, s, i)
  {
    if forall i :: 0 <= i < |es| ==> Covered(es, s, i) {
      forall plan, org | plan in Names(s.plans)
        ensures Preserved(es, s, plan, org)
      {
        CoveredIsPreserved(es, s, plan, org);
      }
    }
    if forall plan, org :: plan in Names(s.plans) ==> Preserved(es, s, plan, org) {
      forall i | 0 <= i < |es|
        ensures Covered(es, s, i)
      {
        assert es[i] in es;
        PreservedIsCovered(es, s, i);
      }
    }
  }

  /** With org guids of one length it always does. */
  lemma SplitPreservesMeaning(es: seq<Entry>, s: Service, plan: string, org: string)
    requires Splittable(es, s) && plan in Names(s.plans)
    ensures Preserved(es, s, plan, org)
  {
    forall i | 0 <= i < |es|
      ensures Covered(es, s, i)
    {
      NothingSkipped(es, s, i);
    }
    CoveredIsPreserved(es, s, plan, org);
  }

  lemma CountLast(es: seq<Entry>, init: seq<Entry>, last: Entry, org: string)
    requires es == init + [last]
    ensures |ForOrg(es, org)| == |ForOrg(init, org)| + if last.orgId == org then 1 else 0
  {
  }

  /** Without equal-length org guids it does not: here the entry for plan "bc" in org "a" has the same
      key as one of the collapsed org "ab", and is dropped. */
  lemma CollidingKeysDropAnEntry()
    ensures var es := [Entry("s", "c", "ab"), Entry("s", "bc", "ab"), Entry("s", "bc", "a")];
            var dropped := Entry("s", "bc", "a");
            && DistinctEntries(es) && dropped in es
            && !InFull(es, 2, dropped) && !InOnlyOrg(es, 2, Entry("s", "", "a"))
  {
    var x, y, z := Entry("s", "c", "ab"), Entry("s", "bc", "ab"), Entry("s", "bc", "a");
    var es := [x, y, z];
    CountLast(es[..1], es[..0], x, "ab");
    CountLast(es[..2], es[..1], y, "ab");
    CountLast(es, es[..2], z, "ab");
    CountLast(es[..1], es[..0], x, "a");
    CountLast(es[..2], es[..1], y, "a");
    CountLast(es, es[..2], z, "a");
    assert Key(x) == "abc" == Key(z);
    assert Key(es[0]) == Key(es[2]) && Collapses(es, 2, es[0].orgId);
    assert Skipped(es, 2, 2);
  }
}
