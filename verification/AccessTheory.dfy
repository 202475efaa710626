/** What the entries read back from a broker mean, and what expanding them gives. */
module AccessTheory {
  import opened ServiceAccess

  // ----- Retrieval -----

  /** isPlanInAllOrgs */
  ghost predicate Everywhere(orgs: seq<string>, pairs: set<Pair>, plan: string) {
    forall o :: o in orgs ==> (plan, o) in pairs
  }

  ghost predicate HasPublicPlan(s: Service) {
    exists p :: p in s.plans && p.public
  }

  /** The service is retrieved as one bare entry. */
  ghost predicate RetrievedBare(s: Service, orgs: seq<string>, pairs: set<Pair>) {
    HasPublicPlan(s) || forall p :: p in s.plans ==> Everywhere(orgs, pairs, p.guid)
  }

  /** The org has every plan of the service, and no plan is in all orgs. */
  ghost predicate Whole(s: Service, orgs: seq<string>, pairs: set<Pair>, org: string) {
    forall p :: p in s.plans ==> (p.guid, org) in pairs && !Everywhere(orgs, pairs, p.guid)
  }

  /** e is retrieved from service s: bare, a plan in all orgs, an org with all plans, or a single pair. */
  ghost predicate RetrievedFrom(s: Service, orgs: seq<string>, pairs: set<Pair>, e: Entry) {
    && e.service == s.name
    && if RetrievedBare(s, orgs, pairs) then e.IsBare()
       else if e.plan == "" then e.orgId != "" && Whole(s, orgs, pairs, e.orgId)
       else exists p :: p in s.plans && p.name == e.plan && RetrievedPlan(s, orgs, pairs, p, e.orgId)
  }

  ghost predicate RetrievedPlan(s: Service, orgs: seq<string>, pairs: set<Pair>, p: Plan, org: string) {
    if org == "" then Everywhere(orgs, pairs, p.guid)
    else !Everywhere(orgs, pairs, p.guid) && (p.guid, org) in pairs && !Whole(s, orgs, pairs, org)
  }

  /** e is one of the entries retrieveServicesAccessFromBroker returns. */
  ghost predicate IsRetrieved(b: Broker, orgs: seq<string>, pairs: set<Pair>, e: Entry) {
    exists s :: s in b.services && RetrievedFrom(s, orgs, pairs, e)
  }

  ghost predicate AreRetrieved(b: Broker, orgs: seq<string>, pairs: set<Pair>, es: set<Entry>) {
    forall e :: e in es <==> IsRetrieved(b, orgs, pairs, e)
  }

  // ----- Access -----

  ghost predicate IsPlanOf(b: Broker, plan: string) {
    exists s, p :: Owns(b, s, p) && p.guid == plan
  }

  /** An org can use a plan: the plan is public, or visible to the org. */
  ghost predicate Effective(b: Broker, orgs: seq<string>, pairs: set<Pair>, x: Pair) {
    x.1 in orgs && exists s, p :: Owns(b, s, p) && p.guid == x.0 && (p.public || x in pairs)
  }

  /** Visibilities refer to existing orgs. */
  ghost predicate OrgsKnown(orgs: seq<string>, pairs: set<Pair>) {
    forall x :: x in pairs ==> x.1 in orgs
  }

  // ----- Compression -----

  lemma DenotesOwn(b: Broker, orgs: seq<string>, s: Service, p: Plan, e: Entry, o: string)
    requires WellFormed(b) && Owns(b, s, p) && e.service == s.name
    ensures Denotes(b, orgs, e, (p.guid, o)) <==> Selects(s, e, p) && InOrgs(orgs, e, o)
  {
    assert ServiceWellFormed(b, s);
    if Denotes(b, orgs, e, (p.guid, o)) {
      var q :| q in s.plans && q.guid == p.guid && Selects(s, e, q);
      assert Owns(b, s, q);
    }
  }

  lemma DenotesOnlyOwn(b: Broker, orgs: seq<string>, s: Service, e: Entry, x: Pair) returns (p: Plan)
    requires WellFormed(b) && s in b.services && e.service == s.name && Denotes(b, orgs, e, x)
    ensures Owns(b, s, p) && p.guid == x.0
  {
    assert ServiceWellFormed(b, s);
    p :| p in s.plans && p.guid == x.0 && Selects(s, e, p);
    assert Owns(b, s, p);
  }

  /** An entry retrieved from s, on a plan of s. */
  lemma RetrievedEntryDenotes(b: Broker, orgs: seq<string>, pairs: set<Pair>, s: Service, p: Plan, e: Entry, o: string)
    requires WellFormed(b) && OrgsKnown(orgs, pairs) && Owns(b, s, p) && RetrievedFrom(s, orgs, pairs, e)
    requires Denotes(b, orgs, e, (p.guid, o))
    ensures o in orgs && (RetrievedBare(s, orgs, pairs) || (p.guid, o) in pairs)
  {
  }

  lemma AccessIsRetrieved(b: Broker, orgs: seq<string>, pairs: set<Pair>, s: Service, p: Plan, o: string)
    returns (e: Entry)
    requires WellFormed(b) && OrgsWellFormed(orgs) && Owns(b, s, p) && o in orgs
    requires RetrievedBare(s, orgs, pairs) || (p.guid, o) in pairs
    ensures RetrievedFrom(s, orgs, pairs, e) && Denotes(b, orgs, e, (p.guid, o))
  {
    assert ServiceWellFormed(b, s);
    if RetrievedBare(s, orgs, pairs) {
      e := Entry(s.name, "", "");
    } else if Everywhere(orgs, pairs, p.guid) {
      e := Entry(s.name, p.name, "");
      assert RetrievedPlan(s, orgs, pairs, p, e.orgId);
    } else if Whole(s, orgs, pairs, o) {
      e := Entry(s.name, "", o);
    } else {
      e := Entry(s.name, p.name, o);
      assert RetrievedPlan(s, orgs, pairs, p, e.orgId);
    }
    DenotesOwn(b, orgs, s, p, e, o);
  }

  /** What the retrieved entries say about a plan of s. */
  lemma RetrievedDenote(b: Broker, orgs: seq<string>, pairs: set<Pair>, es: set<Entry>, s: Service, p: Plan, o: string)
    requires WellFormed(b) && OrgsWellFormed(orgs) && OrgsKnown(orgs, pairs) && AreRetrieved(b, orgs, pairs, es)
    requires Owns(b, s, p)
    ensures DenotedBy(b, orgs, es, (p.guid, o)) <==>
              o in orgs && (RetrievedBare(s, orgs, pairs) || (p.guid, o) in pairs)
  {
    var x := (p.guid, o);
    if DenotedBy(b, orgs, es, x) {
      var e :| e in es && Denotes(b, orgs, e, x);
      var t :| t in b.services && RetrievedFrom(t, orgs, pairs, e);
      var q := DenotesOnlyOwn(b, orgs, t, e, x);
      assert t == s && q == p;
      RetrievedEntryDenotes(b, orgs, pairs, s, p, e, o);
    }
    if o in orgs && (RetrievedBare(s, orgs, pairs) || x in pairs) {
      var e := AccessIsRetrieved(b, orgs, pairs, s, p, o);
      assert IsRetrieved(b, orgs, pairs, e);
    }
  }

  lemma RetrievedDenoteOwn(b: Broker, orgs: seq<string>, pairs: set<Pair>, es: set<Entry>, x: Pair)
    requires WellFormed(b) && AreRetrieved(b, orgs, pairs, es) && DenotedBy(b, orgs, es, x)
    ensures IsPlanOf(b, x.0)
  {
    var e :| e in es && Denotes(b, orgs, e, x);
    var t :| t in b.services && RetrievedFrom(t, orgs, pairs, e);
    var _ := DenotesOnlyOwn(b, orgs, t, e, x);
  }

  /** In each service with a public plan every plan is public or in all orgs. */
  ghost predicate PublicIsTotal(b: Broker, orgs: seq<string>, pairs: set<Pair>) {
    forall s, p :: Owns(b, s, p) && HasPublicPlan(s) ==> p.public || Everywhere(orgs, pairs, p.guid)
  }

  /** Compression is sound: the retrieved entries denote every effective access.  And it is exact if
      and only if in each service with a public plan every plan is public or in all orgs. */
  lemma CompressionSoundAndExact(b: Broker, orgs: seq<string>, pairs: set<Pair>, es: set<Entry>)
    requires WellFormed(b) && OrgsWellFormed(orgs) && OrgsKnown(orgs, pairs) && AreRetrieved(b, orgs, pairs, es)
    ensures forall x :: Effective(b, orgs, pairs, x) ==> DenotedBy(b, orgs, es, x)
    ensures (forall x :: DenotedBy(b, orgs, es, x) ==> Effective(b, orgs, pairs, x)) <==> PublicIsTotal(b, orgs, pairs)
  {
    forall x | Effective(b, orgs, pairs, x)
      ensures DenotedBy(b, orgs, es, x)
    {
      var s, p :| Owns(b, s, p) && p.guid == x.0 && (p.public || x in pairs);
      RetrievedDenote(b, orgs, pairs, es, s, p, x.1);
    }
    if PublicIsTotal(b, orgs, pairs) {
      forall x | DenotedBy(b, orgs, es, x)
        ensures Effective(b, orgs, pairs, x)
      {
        RetrievedDenoteOwn(b, orgs, pairs, es, x);
        var s, p :| Owns(b, s, p) && p.guid == x.0;
        RetrievedDenote(b, orgs, pairs, es, s, p, x.1);
      }
    } else {
      var s, p :| Owns(b, s, p) && HasPublicPlan(s) && !p.public && !Everywhere(orgs, pairs, p.guid);
      var o :| o in orgs && (p.guid, o) !in pairs;
      RetrievedDenote(b, orgs, pairs, es, s, p, o);
      NotEffective(b, orgs, pairs, s, p, o);
    }
  }

  lemma NotEffective(b: Broker, orgs: seq<string>, pairs: set<Pair>, s: Service, p: Plan, o: string)
    requires WellFormed(b) && Owns(b, s, p) && !p.public && (p.guid, o) !in pairs
    ensures !Effective(b, orgs, pairs, (p.guid, o))
  {
  }

  // ----- Expansion -----

  /** The pairs that the expansions of es stand for. */
  ghost predicate ExpandedTo(b: Broker, orgs: seq<string>, es: set<Entry>, x: Pair) {
    exists t :: IsExpansionOf(b, orgs, es, t) && Denotes(b, orgs, t, x)
  }

  /** What expansion makes of an entry: a plan entry loses its org. */
  function Widened(e: Entry): Entry {
    if e.plan != "" then e.(orgId := "") else e
  }

  /** An expansion denotes no more than the widened entry it comes from. */
  lemma ExpansionDenotes(b: Broker, orgs: seq<string>, e: Entry, t: Entry, x: Pair)
    requires WellFormed(b) && OrgsWellFormed(orgs)
    requires IsExpansion(b, orgs, e, t) && Denotes(b, orgs, t, x)
    ensures !e.IsBare() && Denotes(b, orgs, Widened(e), x)
  {
  }

  /** And some expansion denotes each of its pairs. */
  lemma WidenedIsExpanded(b: Broker, orgs: seq<string>, e: Entry, x: Pair) returns (t: Entry)
    requires WellFormed(b) && OrgsWellFormed(orgs)
    requires !e.IsBare() && Denotes(b, orgs, Widened(e), x)
    ensures IsExpansion(b, orgs, e, t) && Denotes(b, orgs, t, x)
  {
    var s := FindService(b.services, e.service).value;
    assert ServiceWellFormed(b, s);
    var p :| p in s.plans && p.guid == x.0 && Selects(s, Widened(e), p);
    t := if e.plan != "" then Entry(e.service, e.plan, x.1) else Entry(e.service, p.name, e.orgId);
    assert Selects(s, t, p);
  }

  lemma ExpandedToIff(b: Broker, orgs: seq<string>, es: set<Entry>, x: Pair)
    requires WellFormed(b) && OrgsWellFormed(orgs)
    ensures ExpandedTo(b, orgs, es, x) <==> exists e :: e in es && !e.IsBare() && Denotes(b, orgs, Widened(e), x)
  {
    if ExpandedTo(b, orgs, es, x) {
      var t :| IsExpansionOf(b, orgs, es, t) && Denotes(b, orgs, t, x);
      var e :| e in es && IsExpansion(b, orgs, e, t);
      ExpansionDenotes(b, orgs, e, t, x);
    }
    if e :| e in es && !e.IsBare() && Denotes(b, orgs, Widened(e), x) {
      var t := WidenedIsExpanded(b, orgs, e, x);
      assert IsExpansionOf(b, orgs, es, t);
    }
  }

  // ----- What an update takes for granted access -----

  /** Some visibility of the plan is retrieved as an entry with plan and org. */
  ghost predicate HasLone(s: Service, orgs: seq<string>, pairs: set<Pair>, p: Plan) {
    && !Everywhere(orgs, pairs, p.guid)
    && exists o :: (p.guid, o) in pairs && !Whole(s, orgs, pairs, o)
  }

  /** Expanding the retrieved entries shows plan p of s in org o: the service is not retrieved bare,
      and the pair is visible or the plan has a lone visibility elsewhere. */
  ghost predicate CountsAsGranted(s: Service, orgs: seq<string>, pairs: set<Pair>, p: Plan, o: string) {
    && !RetrievedBare(s, orgs, pairs)
    && o in orgs && ((p.guid, o) in pairs || HasLone(s, orgs, pairs, p))
  }

  lemma ExpandedCounts(b: Broker, orgs: seq<string>, pairs: set<Pair>, es: set<Entry>, s: Service, p: Plan, o: string)
    requires WellFormed(b) && OrgsWellFormed(orgs) && OrgsKnown(orgs, pairs) && AreRetrieved(b, orgs, pairs, es)
    requires Owns(b, s, p) && ExpandedTo(b, orgs, es, (p.guid, o))
    ensures CountsAsGranted(s, orgs, pairs, p, o)
  {
    var x := (p.guid, o);
    ExpandedToIff(b, orgs, es, x);
    var e :| e in es && !e.IsBare() && Denotes(b, orgs, Widened(e), x);
    var t :| t in b.services && RetrievedFrom(t, orgs, pairs, e);
    var q := DenotesOnlyOwn(b, orgs, t, Widened(e), x);
    assert t == s && q == p;
    DenotesOwn(b, orgs, s, p, Widened(e), o);
    if e.plan == "" {
      assert Whole(s, orgs, pairs, o) && (p.guid, o) in pairs && x.1 in orgs;
    } else {
      assert ServiceWellFormed(b, s);
      assert RetrievedPlan(s, orgs, pairs, p, e.orgId);
    }
  }

  lemma CountsExpanded(b: Broker, orgs: seq<string>, pairs: set<Pair>, es: set<Entry>, s: Service, p: Plan, o: string)
    requires WellFormed(b) && OrgsWellFormed(orgs) && OrgsKnown(orgs, pairs) && AreRetrieved(b, orgs, pairs, es)
    requires Owns(b, s, p) && CountsAsGranted(s, orgs, pairs, p, o)
    ensures ExpandedTo(b, orgs, es, (p.guid, o))
  {
    assert ServiceWellFormed(b, s);
    var e: Entry;
    if Everywhere(orgs, pairs, p.guid) {
      e := Entry(s.name, p.name, "");
      assert RetrievedPlan(s, orgs, pairs, p, e.orgId);
    } else if HasLone(s, orgs, pairs, p) {
      var o' :| (p.guid, o') in pairs && !Whole(s, orgs, pairs, o');
      assert (p.guid, o').1 in orgs;
      e := Entry(s.name, p.name, o');
      assert RetrievedPlan(s, orgs, pairs, p, e.orgId);
    } else {
      e := Entry(s.name, "", o);
    }
    assert IsRetrieved(b, orgs, pairs, e);
    DenotesOwn(b, orgs, s, p, Widened(e), o);
    ExpandedToIff(b, orgs, es, (p.guid, o));
  }

  /** For any visibilities, public flags and plan: the pair is in what retrieval and expansion give if
      and only if it counts as granted, a condition on the current state alone. */
  lemma RetrievedExpandIff(b: Broker, orgs: seq<string>, pairs: set<Pair>, es: set<Entry>, s: Service, p: Plan,
                           o: string)
    requires WellFormed(b) && OrgsWellFormed(orgs) && OrgsKnown(orgs, pairs) && AreRetrieved(b, orgs, pairs, es)
    requires Owns(b, s, p)
    ensures ExpandedTo(b, orgs, es, (p.guid, o)) <==> CountsAsGranted(s, orgs, pairs, p, o)
  {
    if ExpandedTo(b, orgs, es, (p.guid, o)) {
      ExpandedCounts(b, orgs, pairs, es, s, p, o);
    }
    if CountsAsGranted(s, orgs, pairs, p, o) {
      CountsExpanded(b, orgs, pairs, es, s, p, o);
    }
  }

  // ----- When expansion undoes compression -----

  /** Entries that name exactly one of plan and org keep their meaning when expanded. */
  lemma OneSidedKeepMeaning(b: Broker, orgs: seq<string>, es: set<Entry>, x: Pair)
    requires WellFormed(b) && OrgsWellFormed(orgs)
    requires forall e :: e in es ==> e.IsOneSided()
    ensures ExpandedTo(b, orgs, es, x) <==> DenotedBy(b, orgs, es, x)
  {
    ExpandedToIff(b, orgs, es, x);
    assert forall e :: e in es ==> Widened(e) == e && !e.IsBare();
  }

  ghost predicate NoPublicPlan(b: Broker) {
    forall s :: s in b.services ==> !HasPublicPlan(s)
  }

  /** Expanding es gives exactly the visibilities of the broker's plans. */
  ghost predicate Restores(b: Broker, orgs: seq<string>, pairs: set<Pair>, es: set<Entry>) {
    forall x: Pair :: ExpandedTo(b, orgs, es, x) <==> x in pairs && IsPlanOf(b, x.0)
  }

  /** With no public plan, at least one org and at least one plan per service, expanding what was
      retrieved gives the visibilities back if and only if every retrieved entry is one-sided: a bare
      entry loses its pairs, and an entry with plan and org gains the plan in all other orgs. */
  lemma ExpansionUndoesCompressionIff(b: Broker, orgs: seq<string>, pairs: set<Pair>, es: set<Entry>)
    requires WellFormed(b) && OrgsWellFormed(orgs) && OrgsKnown(orgs, pairs) && AreRetrieved(b, orgs, pairs, es)
    requires NoPublicPlan(b)
    requires orgs != [] && forall s :: s in b.services ==> s.plans != []
    ensures Restores(b, orgs, pairs, es) <==> forall e :: e in es ==> e.IsOneSided()
  {
    if forall e :: e in es ==> e.IsOneSided() {
      forall x: Pair
        ensures ExpandedTo(b, orgs, es, x) <==> x in pairs && IsPlanOf(b, x.0)
      {
        OneSidedRestore(b, orgs, pairs, es, x);
      }
    } else {
      var e :| e in es && !e.IsOneSided();
      var s :| s in b.services && RetrievedFrom(s, orgs, pairs, e);
      var p, o := WronglyExpanded(b, orgs, pairs, s, e);
      RetrievedExpandIff(b, orgs, pairs, es, s, p, o);
      assert !Restores(b, orgs, pairs, es);
    }
  }

  /** A two-sided entry comes with a pair that is visible or counts as granted, but not both. */
  lemma WronglyExpanded(b: Broker, orgs: seq<string>, pairs: set<Pair>, s: Service, e: Entry)
    returns (p: Plan, o: string)
    requires WellFormed(b) && OrgsWellFormed(orgs) && OrgsKnown(orgs, pairs) && s in b.services
    requires !HasPublicPlan(s) && orgs != [] && s.plans != []
    requires RetrievedFrom(s, orgs, pairs, e) && !e.IsOneSided()
    ensures Owns(b, s, p) && (CountsAsGranted(s, orgs, pairs, p, o) <==> (p.guid, o) !in pairs)
  {
    if e.IsBare() {
      p, o := s.plans[0], orgs[0];
      assert ServiceWellFormed(b, s) && p in s.plans;
      assert RetrievedBare(s, orgs, pairs) && Everywhere(orgs, pairs, p.guid);
    } else {
      p :| p in s.plans && p.name == e.plan && RetrievedPlan(s, orgs, pairs, p, e.orgId);
      o :| o in orgs && (p.guid, o) !in pairs;
      assert HasLone(s, orgs, pairs, p);
    }
  }

  lemma OneSidedNotBare(b: Broker, orgs: seq<string>, pairs: set<Pair>, es: set<Entry>, s: Service)
    requires AreRetrieved(b, orgs, pairs, es) && s in b.services
    requires forall e :: e in es ==> e.IsOneSided()
    ensures !RetrievedBare(s, orgs, pairs)
  {
    var e := Entry(s.name, "", "");
    assert RetrievedFrom(s, orgs, pairs, e) ==> IsRetrieved(b, orgs, pairs, e);
  }

  lemma OneSidedRestore(b: Broker, orgs: seq<string>, pairs: set<Pair>, es: set<Entry>, x: Pair)
    requires WellFormed(b) && OrgsWellFormed(orgs) && OrgsKnown(orgs, pairs) && AreRetrieved(b, orgs, pairs, es)
    requires forall e :: e in es ==> e.IsOneSided()
    ensures ExpandedTo(b, orgs, es, x) <==> x in pairs && IsPlanOf(b, x.0)
  {
    OneSidedKeepMeaning(b, orgs, es, x);
    if IsPlanOf(b, x.0) {
      var s, p :| Owns(b, s, p) && p.guid == x.0;
      OneSidedNotBare(b, orgs, pairs, es, s);
      RetrievedDenote(b, orgs, pairs, es, s, p, x.1);
    } else if DenotedBy(b, orgs, es, x) {
      RetrievedDenoteOwn(b, orgs, pairs, es, x);
    }
  }

  /** In terms of the visibilities alone: no service has all its plans in all orgs, and a visible plan
      is in all orgs or visible to an org that has every plan. */
  ghost predicate Recoverable(b: Broker, orgs: seq<string>, pairs: set<Pair>) {
    forall s :: s in b.services ==> !RetrievedBare(s, orgs, pairs) && PlansRecoverable(s, orgs, pairs)
  }

  ghost predicate PlansRecoverable(s: Service, orgs: seq<string>, pairs: set<Pair>) {
    forall p, o :: p in s.plans && (p.guid, o) in pairs ==> Everywhere(orgs, pairs, p.guid) || Whole(s, orgs, pairs, o)
  }

  lemma OneSidedIffRecoverable(b: Broker, orgs: seq<string>, pairs: set<Pair>, es: set<Entry>)
    requires WellFormed(b) && OrgsWellFormed(orgs) && OrgsKnown(orgs, pairs) && AreRetrieved(b, orgs, pairs, es)
    ensures (forall e :: e in es ==> e.IsOneSided()) <==> Recoverable(b, orgs, pairs)
  {
    if Recoverable(b, orgs, pairs) {
      forall e | e in es
        ensures e.IsOneSided()
      {
        var s :| s in b.services && RetrievedFrom(s, orgs, pairs, e);
      }
    } else {
      var s :| s in b.services && (RetrievedBare(s, orgs, pairs) || !PlansRecoverable(s, orgs, pairs));
      var e := TwoSidedEntry(b, orgs, pairs, s);
      assert IsRetrieved(b, orgs, pairs, e);
    }
  }

  /** A service that is not recoverable is retrieved with a bare entry or one naming plan and org. */
  lemma TwoSidedEntry(b: Broker, orgs: seq<string>, pairs: set<Pair>, s: Service) returns (e: Entry)
    requires WellFormed(b) && OrgsWellFormed(orgs) && OrgsKnown(orgs, pairs) && s in b.services
    requires RetrievedBare(s, orgs, pairs) || !PlansRecoverable(s, orgs, pairs)
    ensures RetrievedFrom(s, orgs, pairs, e) && !e.IsOneSided()
  {
    assert ServiceWellFormed(b, s);
    if RetrievedBare(s, orgs, pairs) {
      e := Entry(s.name, "", "");
    } else {
      var p, o :| p in s.plans && (p.guid, o) in pairs
                  && !Everywhere(orgs, pairs, p.guid) && !Whole(s, orgs, pairs, o);
      e := Entry(s.name, p.name, o);
      assert (p.guid, o).1 in orgs;
      assert RetrievedPlan(s, orgs, pairs, p, o);
    }
  }
}
