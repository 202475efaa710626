/** Drift: whether reading service access back after an update gives the configured entries again. */
module ReadBack {
  import opened ServiceAccess
  import opened AccessTheory
  import opened UpdateTheory

  /** The visibilities of the broker's plans are what the entries denote. */
  ghost predicate Matches(b: Broker, orgs: seq<string>, pairs: set<Pair>, wanted: set<Entry>) {
    forall s, p, o :: Owns(b, s, p) ==> ((p.guid, o) in pairs <==> DenotedBy(b, orgs, wanted, (p.guid, o)))
  }

  /** An entry with an org says nothing that a shorter entry would say: no plan it is about is in all
      orgs, and if it names a plan its org does not have every plan. */
  ghost predicate Tidy(s: Service, orgs: seq<string>, pairs: set<Pair>, e: Entry) {
    e.orgId != "" ==>
      && (forall p :: p in s.plans && (e.plan == "" || e.plan == p.name) ==> !Everywhere(orgs, pairs, p.guid))
      && (e.plan != "" ==> !Whole(s, orgs, pairs, e.orgId))
  }

  /** The wanted entries for s are a bare one if s is retrieved bare, and otherwise are all tidy. */
  ghost predicate InShortForm(s: Service, orgs: seq<string>, pairs: set<Pair>, wanted: set<Entry>) {
    if RetrievedBare(s, orgs, pairs) then
      Entry(s.name, "", "") in wanted && forall e :: e in wanted && e.service == s.name ==> e.IsBare()
    else
      forall e :: e in wanted && e.service == s.name ==> Tidy(s, orgs, pairs, e)
  }

  /** What a wanted entry of s denotes is visible. */
  lemma WantedIsVisible(b: Broker, orgs: seq<string>, pairs: set<Pair>, wanted: set<Entry>, s: Service, p: Plan,
                        e: Entry, o: string)
    requires WellFormed(b) && Matches(b, orgs, pairs, wanted) && Owns(b, s, p)
    requires e in wanted && e.service == s.name && (e.plan == "" || e.plan == p.name) && InOrgs(orgs, e, o)
    ensures (p.guid, o) in pairs
  {
    assert ServiceWellFormed(b, s);
    EntryDenotesIff(b, orgs, e, s, p, o);
  }

  /** And what is visible is denoted by a wanted entry of s. */
  lemma VisibleIsWanted(b: Broker, orgs: seq<string>, pairs: set<Pair>, wanted: set<Entry>, s: Service, p: Plan,
                        o: string) returns (e: Entry)
    requires WellFormed(b) && Matches(b, orgs, pairs, wanted) && Owns(b, s, p)
    requires (forall e :: e in wanted ==> WellNamed(b, e)) && (p.guid, o) in pairs
    ensures e in wanted && e.service == s.name && (e.plan == "" || e.plan == p.name) && InOrgs(orgs, e, o)
  {
    e :| e in wanted && Denotes(b, orgs, e, (p.guid, o));
    EntryDenotesIff(b, orgs, e, s, p, o);
    var t :| t in b.services && e.service == t.name && (e.plan == "" || exists q :: q in t.plans && e.plan == q.name);
    assert ServiceWellFormed(b, t);
  }

  /** A wanted entry of a service that is not retrieved bare comes back if it is tidy. */
  lemma TidyIsRetrieved(b: Broker, orgs: seq<string>, pairs: set<Pair>, wanted: set<Entry>, s: Service, e: Entry)
    requires WellFormed(b) && OrgsWellFormed(orgs) && Matches(b, orgs, pairs, wanted) && s in b.services
    requires e in wanted && WellNamed(b, e) && e.service == s.name
    requires !RetrievedBare(s, orgs, pairs) && Tidy(s, orgs, pairs, e)
    ensures RetrievedFrom(s, orgs, pairs, e)
  {
    assert ServiceWellFormed(b, s);
    if e.plan != "" {
      var t :| t in b.services && e.service == t.name && exists q :: q in t.plans && e.plan == q.name;
      assert ServiceWellFormed(b, t) && t == s;
      var p :| p in s.plans && e.plan == p.name;
      VisibleThroughout(b, orgs, pairs, wanted, s, p, e);
      assert RetrievedPlan(s, orgs, pairs, p, e.orgId);
    } else {
      forall p | p in s.plans
        ensures if e.orgId == "" then Everywhere(orgs, pairs, p.guid) else (p.guid, e.orgId) in pairs
      {
        VisibleThroughout(b, orgs, pairs, wanted, s, p, e);
      }
    }
  }

  lemma VisibleThroughout(b: Broker, orgs: seq<string>, pairs: set<Pair>, wanted: set<Entry>, s: Service, p: Plan,
                          e: Entry)
    requires WellFormed(b) && Matches(b, orgs, pairs, wanted) && s in b.services && p in s.plans
    requires e in wanted && e.service == s.name && (e.plan == "" || e.plan == p.name)
    ensures if e.orgId == "" then Everywhere(orgs, pairs, p.guid) else (p.guid, e.orgId) in pairs
  {
    assert Owns(b, s, p);
    if e.orgId == "" {
      forall o | o in orgs
        ensures (p.guid, o) in pairs
      {
        WantedIsVisible(b, orgs, pairs, wanted, s, p, e, o);
      }
    } else {
      WantedIsVisible(b, orgs, pairs, wanted, s, p, e, e.orgId);
    }
  }

  /** An entry retrieved from such a service is wanted, if all wanted ones are tidy. */
  lemma RetrievedIsWanted(b: Broker, orgs: seq<string>, pairs: set<Pair>, wanted: set<Entry>, s: Service, e: Entry)
    requires WellFormed(b) && OrgsWellFormed(orgs) && OrgsKnown(orgs, pairs) && Matches(b, orgs, pairs, wanted)
    requires s in b.services && (forall d :: d in wanted ==> WellNamed(b, d)) && InShortForm(s, orgs, pairs, wanted)
    requires !RetrievedBare(s, orgs, pairs) && RetrievedFrom(s, orgs, pairs, e)
    ensures e in wanted
  {
    var p, o := SamplePair(b, orgs, pairs, s, e);
    var d := VisibleIsWanted(b, orgs, pairs, wanted, s, p, o);
    assert Tidy(s, orgs, pairs, d);
    TidyIsRetrieved(b, orgs, pairs, wanted, s, d);
    SameEntry(b, orgs, pairs, s, p, o, d, e);
  }

  /** A visible pair that the retrieved entry e is about. */
  lemma SamplePair(b: Broker, orgs: seq<string>, pairs: set<Pair>, s: Service, e: Entry) returns (p: Plan, o: string)
    requires WellFormed(b) && s in b.services
    requires !RetrievedBare(s, orgs, pairs) && RetrievedFrom(s, orgs, pairs, e)
    ensures Owns(b, s, p) && (p.guid, o) in pairs && (e.plan == "" || e.plan == p.name) && InOrgs(orgs, e, o)
  {
    assert ServiceWellFormed(b, s);
    p :| p in s.plans && !Everywhere(orgs, pairs, p.guid);
    assert orgs != [];
    if e.plan == "" {
      o := e.orgId;
    } else {
      p :| p in s.plans && p.name == e.plan && RetrievedPlan(s, orgs, pairs, p, e.orgId);
      o := if e.orgId == "" then orgs[0] else e.orgId;
    }
  }

  /** Two retrieved entries about the same visible pair are the same. */
  lemma SameEntry(b: Broker, orgs: seq<string>, pairs: set<Pair>, s: Service, p: Plan, o: string, d: Entry, e: Entry)
    requires WellFormed(b) && OrgsWellFormed(orgs) && Owns(b, s, p) && !RetrievedBare(s, orgs, pairs)
    requires RetrievedFrom(s, orgs, pairs, d) && (d.plan == "" || d.plan == p.name) && InOrgs(orgs, d, o)
    requires RetrievedFrom(s, orgs, pairs, e) && (e.plan == "" || e.plan == p.name) && InOrgs(orgs, e, o)
    ensures d == e
  {
    FormOf(b, orgs, pairs, s, p, o, d);
    FormOf(b, orgs, pairs, s, p, o, e);
  }

  /** The form in which retrieval shows a pair. */
  lemma FormOf(b: Broker, orgs: seq<string>, pairs: set<Pair>, s: Service, p: Plan, o: string, e: Entry)
    requires WellFormed(b) && OrgsWellFormed(orgs) && Owns(b, s, p) && !RetrievedBare(s, orgs, pairs)
    requires RetrievedFrom(s, orgs, pairs, e) && (e.plan == "" || e.plan == p.name) && InOrgs(orgs, e, o)
    ensures e == if Everywhere(orgs, pairs, p.guid) then Entry(s.name, p.name, "")
                 else if Whole(s, orgs, pairs, o) then Entry(s.name, "", o)
                 else Entry(s.name, p.name, o)
  {
    assert ServiceWellFormed(b, s);
    if e.plan != "" {
      var q :| q in s.plans && q.name == e.plan && RetrievedPlan(s, orgs, pairs, q, e.orgId);
      assert q == p;
    }
  }

  /** No drift: with visibilities as the wanted entries denote them, and entries by label and plan name,
      reading back gives exactly the wanted entries if and only if these are in the short form that
      retrieval chooses. */
  lemma NoDriftIff(b: Broker, orgs: seq<string>, pairs: set<Pair>, wanted: set<Entry>)
    requires WellFormed(b) && OrgsWellFormed(orgs) && OrgsKnown(orgs, pairs) && Matches(b, orgs, pairs, wanted)
    requires forall e :: e in wanted ==> WellNamed(b, e)
    ensures AreRetrieved(b, orgs, pairs, wanted) <==>
            forall s :: s in b.services ==> InShortForm(s, orgs, pairs, wanted)
  {
    if forall s :: s in b.services ==> InShortForm(s, orgs, pairs, wanted) {
      forall e
        ensures e in wanted <==> IsRetrieved(b, orgs, pairs, e)
      {
        if e in wanted {
          ShortIsRetrieved(b, orgs, pairs, wanted, e);
        }
        if IsRetrieved(b, orgs, pairs, e) {
          var s :| s in b.services && RetrievedFrom(s, orgs, pairs, e);
          if RetrievedBare(s, orgs, pairs) {
            assert e == Entry(s.name, "", "");
          } else {
            RetrievedIsWanted(b, orgs, pairs, wanted, s, e);
          }
        }
      }
    }
    if AreRetrieved(b, orgs, pairs, wanted) {
      forall s | s in b.services
        ensures InShortForm(s, orgs, pairs, wanted)
      {
        RetrievedIsShort(b, orgs, pairs, wanted, s);
      }
    }
  }

  /** In particular after an update that reaches what is wanted, which leaves no plan public. */
  lemma NoDriftAfterUpdateIff(b: Broker, orgs: seq<string>, pairs: set<Pair>, retrieved: set<Entry>,
                              wanted: set<Entry>, src: set<Entry>, dst: set<Entry>, after: set<Pair>)
    requires Updating(b, orgs, pairs, retrieved, wanted, src, dst) && Recoverable(b, orgs, pairs)
    requires forall e :: e in wanted ==> WellNamed(b, e) && e.IsOneSided()
    requires OrgsKnown(orgs, after) && forall x :: x in after <==> After(b, orgs, pairs, src, dst, x)
    ensures AreRetrieved(b, orgs, after, wanted) <==>
            forall s :: s in b.services ==> InShortForm(s, orgs, after, wanted)
  {
    forall s, p, o | Owns(b, s, p)
      ensures (p.guid, o) in after <==> DenotedBy(b, orgs, wanted, (p.guid, o))
    {
      UpdateReachesWanted(b, orgs, pairs, retrieved, wanted, src, dst, (p.guid, o));
    }
    NoDriftIff(b, orgs, after, wanted);
  }

  lemma ShortIsRetrieved(b: Broker, orgs: seq<string>, pairs: set<Pair>, wanted: set<Entry>, e: Entry)
    requires WellFormed(b) && OrgsWellFormed(orgs) && Matches(b, orgs, pairs, wanted)
    requires (forall s :: s in b.services ==> InShortForm(s, orgs, pairs, wanted)) && e in wanted && WellNamed(b, e)
    ensures IsRetrieved(b, orgs, pairs, e)
  {
    var s :| s in b.services && e.service == s.name;
    assert InShortForm(s, orgs, pairs, wanted);
    if !RetrievedBare(s, orgs, pairs) {
      TidyIsRetrieved(b, orgs, pairs, wanted, s, e);
    }
    assert RetrievedFrom(s, orgs, pairs, e);
  }

  lemma RetrievedIsShort(b: Broker, orgs: seq<string>, pairs: set<Pair>, wanted: set<Entry>, s: Service)
    requires WellFormed(b) && AreRetrieved(b, orgs, pairs, wanted) && s in b.services
    ensures InShortForm(s, orgs, pairs, wanted)
  {
    assert ServiceWellFormed(b, s);
    if RetrievedBare(s, orgs, pairs) {
      assert RetrievedFrom(s, orgs, pairs, Entry(s.name, "", ""));
      assert IsRetrieved(b, orgs, pairs, Entry(s.name, "", ""));
    }
    forall e | e in wanted && e.service == s.name
      ensures RetrievedFrom(s, orgs, pairs, e)
    {
      var t :| t in b.services && RetrievedFrom(t, orgs, pairs, e);
      assert ServiceWellFormed(b, t);
    }
  }

  /** The only plan of a service, wanted in every org, always drifts: it is read back as the bare service. */
  lemma OnlyPlanDrifts(b: Broker, orgs: seq<string>, pairs: set<Pair>, s: Service, p: Plan)
    requires WellFormed(b) && OrgsWellFormed(orgs) && OrgsKnown(orgs, pairs) && s in b.services && s.plans == [p]
    requires Matches(b, orgs, pairs, {Entry(s.name, p.name, "")})
    ensures !AreRetrieved(b, orgs, pairs, {Entry(s.name, p.name, "")})
  {
    var e := Entry(s.name, p.name, "");
    assert ServiceWellFormed(b, s) && p in s.plans && Owns(b, s, p);
    assert WellNamed(b, e);
    forall o | o in orgs
      ensures (p.guid, o) in pairs
    {
      WantedIsVisible(b, orgs, pairs, {e}, s, p, e, o);
    }
    assert RetrievedBare(s, orgs, pairs);
    assert !InShortForm(s, orgs, pairs, {e});
    NoDriftIff(b, orgs, pairs, {e});
  }

  /** It does happen: one service, one plan, one org. */
  lemma DriftHappens() returns (b: Broker, orgs: seq<string>, pairs: set<Pair>, wanted: set<Entry>)
    ensures WellFormed(b) && OrgsWellFormed(orgs) && OrgsKnown(orgs, pairs) && NoPublicPlan(b)
    ensures forall e :: e in wanted ==> WellNamed(b, e) && e.IsOneSided()
    ensures Matches(b, orgs, pairs, wanted) && !AreRetrieved(b, orgs, pairs, wanted)
  {
    var p := Plan("p1", "small", "s1", false);
    var s := Service("s1", "db", [p]);
    b, orgs, pairs, wanted := Broker("broker", [s]), ["o1"], {("p1", "o1")}, {Entry("db", "small", "")};
    OnePlanMatches(b, s, p, orgs, "o1");
    OnlyPlanDrifts(b, orgs, pairs, s, p);
  }

  lemma OnePlanMatches(b: Broker, s: Service, p: Plan, orgs: seq<string>, o: string)
    requires b.services == [s] && s.plans == [p] && s.guid != "" && p.guid != "" && p.name != "" && !p.public
    requires p.serviceGuid == s.guid && orgs == [o] && o != ""
    ensures WellFormed(b) && OrgsWellFormed(orgs) && OrgsKnown(orgs, {(p.guid, o)}) && NoPublicPlan(b)
    ensures WellNamed(b, Entry(s.name, p.name, "")) && Matches(b, orgs, {(p.guid, o)}, {Entry(s.name, p.name, "")})
  {
    var e := Entry(s.name, p.name, "");
    assert s in b.services && p in s.plans && orgs[0] == o;
    assert forall t, q :: Owns(b, t, q) <==> t == s && q == p;
    forall t, q, o' | Owns(b, t, q)
      ensures (q.guid, o') in {(p.guid, o)} <==> DenotedBy(b, orgs, {e}, (q.guid, o'))
    {
      EntryDenotesIff(b, orgs, e, s, p, o');
    }
  }
}
