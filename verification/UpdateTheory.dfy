/** Where a service-access update ends: it creates the wanted entries that were not retrieved and
    deletes the retrieved entries that are not wanted. */
module UpdateTheory {
  import opened Wrappers
  import opened ServiceAccess
  import opened AccessTheory

  /** x is visible after the create loop and then the delete loop have run on the difference of the
      two lists of full entries. */
  ghost predicate After(b: Broker, orgs: seq<string>, pairs: set<Pair>, src: set<Entry>, dst: set<Entry>, x: Pair) {
    (x in pairs || DenotedBy(b, orgs, dst - src, x)) && !DenotedBy(b, orgs, src - dst, x)
  }

  ghost predicate AreExpansions(b: Broker, orgs: seq<string>, es: set<Entry>, ts: set<Entry>) {
    forall t :: t in ts <==> IsExpansionOf(b, orgs, es, t)
  }

  // ----- Full entries written with labels and plan names -----

  ghost predicate Canonical(b: Broker, t: Entry) {
    t.orgId != "" && exists s, p :: Owns(b, s, p) && t.service == s.name && t.plan == p.name
  }

  lemma CanonicalDenotedBy(b: Broker, orgs: seq<string>, ts: set<Entry>, s: Service, p: Plan, o: string)
    requires WellFormed(b) && Owns(b, s, p) && forall t :: t in ts ==> Canonical(b, t)
    ensures DenotedBy(b, orgs, ts, (p.guid, o)) <==> Entry(s.name, p.name, o) in ts
  {
  }

  /** For canonical lists the difference of the lists is the difference of what they mean. */
  lemma CanonicalDifference(b: Broker, orgs: seq<string>, ts: set<Entry>, us: set<Entry>, x: Pair)
    requires WellFormed(b) && IsPlanOf(b, x.0)
    requires forall t :: t in ts + us ==> Canonical(b, t)
    ensures DenotedBy(b, orgs, ts - us, x) <==> DenotedBy(b, orgs, ts, x) && !DenotedBy(b, orgs, us, x)
  {
    var s, p :| Owns(b, s, p) && p.guid == x.0;
    CanonicalDenotedBy(b, orgs, ts - us, s, p, x.1);
    CanonicalDenotedBy(b, orgs, ts, s, p, x.1);
    CanonicalDenotedBy(b, orgs, us, s, p, x.1);
  }

  /** Diff and apply: from visibilities equal to src, creating dst - src and deleting src - dst ends
      with visibilities equal to dst, and leaves the plans of other brokers alone. */
  lemma DiffAndApply(b: Broker, orgs: seq<string>, pairs: set<Pair>, src: set<Entry>, dst: set<Entry>, x: Pair)
    requires WellFormed(b) && forall t :: t in src + dst ==> Canonical(b, t)
    requires IsPlanOf(b, x.0) ==> (x in pairs <==> DenotedBy(b, orgs, src, x))
    ensures After(b, orgs, pairs, src, dst, x) <==>
            if IsPlanOf(b, x.0) then DenotedBy(b, orgs, dst, x) else x in pairs
  {
    if IsPlanOf(b, x.0) {
      CanonicalDifference(b, orgs, dst, src, x);
      CanonicalDifference(b, orgs, src, dst, x);
    } else {
      DenotesNoOther(b, orgs, dst - src, x);
      DenotesNoOther(b, orgs, src - dst, x);
    }
  }

  lemma DenotesNoOther(b: Broker, orgs: seq<string>, ts: set<Entry>, x: Pair)
    requires WellFormed(b) && !IsPlanOf(b, x.0)
    ensures !DenotedBy(b, orgs, ts, x)
  {
    forall t | t in ts
      ensures !Denotes(b, orgs, t, x)
    {
      var found := FindService(b.services, t.service);
      if found.Some? {
        forall p | p in found.value.plans
          ensures p.guid != x.0
        {
          assert Owns(b, found.value, p);
        }
      }
    }
  }

  // ----- Entries written with labels and plan names -----

  ghost predicate WellNamed(b: Broker, e: Entry) {
    exists s :: s in b.services && e.service == s.name && (e.plan == "" || exists p :: p in s.plans && e.plan == p.name)
  }

  lemma ExpansionsCanonical(b: Broker, orgs: seq<string>, es: set<Entry>, ts: set<Entry>)
    requires WellFormed(b) && OrgsWellFormed(orgs) && AreExpansions(b, orgs, es, ts)
    requires forall e :: e in es ==> WellNamed(b, e)
    ensures forall t :: t in ts ==> Canonical(b, t)
  {
    forall t | t in ts
      ensures Canonical(b, t)
    {
      var e :| e in es && IsExpansion(b, orgs, e, t);
      var s :| s in b.services && e.service == s.name && (e.plan == "" || exists p :: p in s.plans && e.plan == p.name);
      assert ServiceWellFormed(b, s);
      var p :| p in s.plans && t.plan == p.name;
      assert Owns(b, s, p);
    }
  }

  lemma RetrievedWellNamed(b: Broker, orgs: seq<string>, pairs: set<Pair>, es: set<Entry>)
    requires AreRetrieved(b, orgs, pairs, es)
    ensures forall e :: e in es ==> WellNamed(b, e)
  {
  }

  lemma ExpandedToIsDenoted(b: Broker, orgs: seq<string>, es: set<Entry>, ts: set<Entry>, x: Pair)
    requires AreExpansions(b, orgs, es, ts)
    ensures ExpandedTo(b, orgs, es, x) <==> DenotedBy(b, orgs, ts, x)
  {
  }

  /** The context of an update: the entries retrieved, the wanted ones, and their expansions. */
  ghost predicate Updating(b: Broker, orgs: seq<string>, pairs: set<Pair>, retrieved: set<Entry>, wanted: set<Entry>,
                           src: set<Entry>, dst: set<Entry>)
  {
    && WellFormed(b) && OrgsWellFormed(orgs) && OrgsKnown(orgs, pairs)
    && AreRetrieved(b, orgs, pairs, retrieved)
    && AreExpansions(b, orgs, retrieved, src) && AreExpansions(b, orgs, wanted, dst)
  }

  // ----- What an update ends with, from any state -----

  /** The wanted entries expand to the pair under the label of the service and the name of the plan. */
  ghost predicate WantedByName(orgs: seq<string>, wanted: set<Entry>, s: Service, p: Plan, o: string) {
    exists e :: e in wanted && e.service == s.name
                && if e.plan != "" then e.plan == p.name && o in orgs else e.orgId != "" && e.orgId == o
  }

  /** They expand to it under another name: the guid of the service or of the plan. */
  ghost predicate WantedByAlias(b: Broker, orgs: seq<string>, wanted: set<Entry>, s: Service, p: Plan, o: string) {
    exists e :: e in wanted && !e.IsBare() && Denotes(b, orgs, Widened(e), (p.guid, o))
                && (e.service != s.name || (e.plan != "" && e.plan != p.name))
  }

  /** The pair is visible after an update: one that counted as granted has to be wanted under its
      names, and then stays if it was there or is created under another name; any other stays, or is
      created if it is wanted. */
  ghost predicate EndsVisible(b: Broker, orgs: seq<string>, pairs: set<Pair>, wanted: set<Entry>,
                              s: Service, p: Plan, o: string)
  {
    if CountsAsGranted(s, orgs, pairs, p, o) then
      && WantedByName(orgs, wanted, s, p, o)
      && ((p.guid, o) in pairs || WantedByAlias(b, orgs, wanted, s, p, o))
    else
      (p.guid, o) in pairs || ExpandedTo(b, orgs, wanted, (p.guid, o))
  }

  lemma NamedIsExpanded(b: Broker, orgs: seq<string>, wanted: set<Entry>, s: Service, p: Plan, o: string)
    requires WellFormed(b) && OrgsWellFormed(orgs) && Owns(b, s, p)
    ensures WantedByName(orgs, wanted, s, p, o) <==> IsExpansionOf(b, orgs, wanted, Entry(s.name, p.name, o))
  {
    assert ServiceWellFormed(b, s);
    var c := Entry(s.name, p.name, o);
    if WantedByName(orgs, wanted, s, p, o) {
      var e :| e in wanted && e.service == s.name
               && if e.plan != "" then e.plan == p.name && o in orgs else e.orgId != "" && e.orgId == o;
      assert IsExpansion(b, orgs, e, c);
    }
    if IsExpansionOf(b, orgs, wanted, c) {
      var e :| e in wanted && IsExpansion(b, orgs, e, c);
      assert e.service == s.name;
    }
  }

  /** Another entry than the one with label, name and org that denotes the same pair. */
  ghost predicate IsAlias(b: Broker, orgs: seq<string>, s: Service, p: Plan, o: string, t: Entry) {
    t != Entry(s.name, p.name, o) && Denotes(b, orgs, t, (p.guid, o))
  }

  lemma AliasIsExpanded(b: Broker, orgs: seq<string>, wanted: set<Entry>, s: Service, p: Plan, o: string)
    requires WellFormed(b) && OrgsWellFormed(orgs) && Owns(b, s, p)
    ensures WantedByAlias(b, orgs, wanted, s, p, o) ==>
              exists t :: IsExpansionOf(b, orgs, wanted, t) && IsAlias(b, orgs, s, p, o, t)
  {
    if WantedByAlias(b, orgs, wanted, s, p, o) {
      var e :| e in wanted && !e.IsBare() && Denotes(b, orgs, Widened(e), (p.guid, o))
               && (e.service != s.name || (e.plan != "" && e.plan != p.name));
      var t := WidenedIsExpanded(b, orgs, e, (p.guid, o));
      assert IsExpansionOf(b, orgs, wanted, t) && IsAlias(b, orgs, s, p, o, t);
    }
  }

  lemma ExpandedIsAlias(b: Broker, orgs: seq<string>, wanted: set<Entry>, s: Service, p: Plan, o: string, t: Entry)
    requires WellFormed(b) && OrgsWellFormed(orgs) && Owns(b, s, p)
    requires IsExpansionOf(b, orgs, wanted, t) && IsAlias(b, orgs, s, p, o, t)
    ensures WantedByAlias(b, orgs, wanted, s, p, o)
  {
    var e :| e in wanted && IsExpansion(b, orgs, e, t);
    ExpansionDenotes(b, orgs, e, t, (p.guid, o));
    assert ServiceWellFormed(b, s);
    assert t.orgId != "" && t.orgId == o;
    if e.service == s.name {
      DenotesOwn(b, orgs, s, p, t, o);
      assert t.plan != p.name;
    }
  }

  /** src are canonical, so an entry of src that denotes the pair is the canonical one. */
  lemma OnlyCanonical(b: Broker, orgs: seq<string>, src: set<Entry>, s: Service, p: Plan, o: string, t: Entry)
    requires WellFormed(b) && Owns(b, s, p) && (forall c :: c in src ==> Canonical(b, c))
    requires t in src && Denotes(b, orgs, t, (p.guid, o))
    ensures t == Entry(s.name, p.name, o)
  {
    var s', p' :| Owns(b, s', p') && t.service == s'.name && t.plan == p'.name;
    assert ServiceWellFormed(b, s');
    DenotesOwn(b, orgs, s', p', t, o);
    var q := DenotesOnlyOwn(b, orgs, s', t, (p.guid, o));
    assert s' == s && Selects(s, t, p);
  }

  lemma CanonicalDenotes(b: Broker, orgs: seq<string>, s: Service, p: Plan, o: string)
    requires WellFormed(b) && Owns(b, s, p) && o != ""
    ensures Denotes(b, orgs, Entry(s.name, p.name, o), (p.guid, o))
  {
    DenotesOwn(b, orgs, s, p, Entry(s.name, p.name, o), o);
    assert ServiceWellFormed(b, s);
  }

  /** What is deleted, and what is created, on one pair. */
  lemma DeletedAt(b: Broker, orgs: seq<string>, src: set<Entry>, dst: set<Entry>, s: Service, p: Plan, o: string)
    requires WellFormed(b) && Owns(b, s, p) && (forall c :: c in src ==> Canonical(b, c))
    ensures DenotedBy(b, orgs, src - dst, (p.guid, o)) <==> Entry(s.name, p.name, o) in src - dst
  {
    var c := Entry(s.name, p.name, o);
    if DenotedBy(b, orgs, src - dst, (p.guid, o)) {
      var t :| t in src - dst && Denotes(b, orgs, t, (p.guid, o));
      OnlyCanonical(b, orgs, src, s, p, o, t);
    }
    if c in src - dst {
      assert Canonical(b, c);
      CanonicalDenotes(b, orgs, s, p, o);
    }
  }

  lemma CreatedAt(b: Broker, orgs: seq<string>, wanted: set<Entry>, src: set<Entry>, dst: set<Entry>,
                  s: Service, p: Plan, o: string)
    requires WellFormed(b) && OrgsWellFormed(orgs) && AreExpansions(b, orgs, wanted, dst)
    requires Owns(b, s, p) && forall c :: c in src ==> Canonical(b, c)
    ensures DenotedBy(b, orgs, dst - src, (p.guid, o)) <==>
            WantedByAlias(b, orgs, wanted, s, p, o) || Entry(s.name, p.name, o) in dst - src
  {
    var c := Entry(s.name, p.name, o);
    if DenotedBy(b, orgs, dst - src, (p.guid, o)) {
      var t :| t in dst - src && Denotes(b, orgs, t, (p.guid, o));
      if t != c {
        ExpandedIsAlias(b, orgs, wanted, s, p, o, t);
      }
    }
    if WantedByAlias(b, orgs, wanted, s, p, o) {
      AliasIsExpanded(b, orgs, wanted, s, p, o);
      var t :| IsExpansionOf(b, orgs, wanted, t) && IsAlias(b, orgs, s, p, o, t);
      if t in src {
        OnlyCanonical(b, orgs, src, s, p, o, t);
      }
      assert t in dst - src;
    }
    if c in dst - src {
      NamedIsExpanded(b, orgs, wanted, s, p, o);
      CanonicalDenotes(b, orgs, s, p, o);
    }
  }

  lemma WantedIff(b: Broker, orgs: seq<string>, wanted: set<Entry>, s: Service, p: Plan, o: string)
    requires WellFormed(b) && OrgsWellFormed(orgs) && Owns(b, s, p)
    ensures ExpandedTo(b, orgs, wanted, (p.guid, o)) <==>
            WantedByName(orgs, wanted, s, p, o) || WantedByAlias(b, orgs, wanted, s, p, o)
  {
    NamedIsExpanded(b, orgs, wanted, s, p, o);
    if ExpandedTo(b, orgs, wanted, (p.guid, o)) {
      var t :| IsExpansionOf(b, orgs, wanted, t) && Denotes(b, orgs, t, (p.guid, o));
      if t != Entry(s.name, p.name, o) {
        ExpandedIsAlias(b, orgs, wanted, s, p, o, t);
      }
    }
    if WantedByName(orgs, wanted, s, p, o) {
      CanonicalDenotes(b, orgs, s, p, o);
    }
    AliasIsExpanded(b, orgs, wanted, s, p, o);
  }

  /** The end of a successful update on the plans of the broker, for every current state, every snapshot
      of the flags and every wanted list, whatever names it uses. */
  lemma UpdateEndsWith(b: Broker, orgs: seq<string>, pairs: set<Pair>, retrieved: set<Entry>, wanted: set<Entry>,
                       src: set<Entry>, dst: set<Entry>, s: Service, p: Plan, o: string)
    requires Updating(b, orgs, pairs, retrieved, wanted, src, dst) && Owns(b, s, p)
    ensures After(b, orgs, pairs, src, dst, (p.guid, o)) <==> EndsVisible(b, orgs, pairs, wanted, s, p, o)
  {
    RetrievedWellNamed(b, orgs, pairs, retrieved);
    ExpansionsCanonical(b, orgs, retrieved, src);
    RetrievedExpandIff(b, orgs, pairs, retrieved, s, p, o);
    ExpandedToIsDenoted(b, orgs, retrieved, src, (p.guid, o));
    CanonicalDenotedBy(b, orgs, src, s, p, o);
    NamedIsExpanded(b, orgs, wanted, s, p, o);
    DeletedAt(b, orgs, src, dst, s, p, o);
    CreatedAt(b, orgs, wanted, src, dst, s, p, o);
    WantedIff(b, orgs, wanted, s, p, o);
  }

  // ----- Convergence -----

  /** The update reaches what the wanted entries expand to, on every plan of the broker. */
  ghost predicate Converges(b: Broker, orgs: seq<string>, pairs: set<Pair>, wanted: set<Entry>,
                            src: set<Entry>, dst: set<Entry>)
  {
    forall s, p, o :: Owns(b, s, p) ==> ReachedAt(b, orgs, pairs, wanted, src, dst, p, o)
  }

  ghost predicate ReachedAt(b: Broker, orgs: seq<string>, pairs: set<Pair>, wanted: set<Entry>,
                            src: set<Entry>, dst: set<Entry>, p: Plan, o: string)
  {
    After(b, orgs, pairs, src, dst, (p.guid, o)) <==> ExpandedTo(b, orgs, wanted, (p.guid, o))
  }

  /** A wanted pair that counts as granted is wanted under its names, and is really visible or wanted
      under other names too; a visible pair that does not count as granted is wanted. */
  ghost predicate MayConverge(b: Broker, orgs: seq<string>, pairs: set<Pair>, wanted: set<Entry>,
                              s: Service, p: Plan, o: string)
  {
    if CountsAsGranted(s, orgs, pairs, p, o) then
      ExpandedTo(b, orgs, wanted, (p.guid, o)) ==>
        && WantedByName(orgs, wanted, s, p, o)
        && ((p.guid, o) in pairs || WantedByAlias(b, orgs, wanted, s, p, o))
    else
      (p.guid, o) in pairs ==> ExpandedTo(b, orgs, wanted, (p.guid, o))
  }

  /** From any current state and for any wanted list, the update converges if and only if the state,
      the snapshot of the flags and the list satisfy MayConverge on every plan and org. */
  lemma ConvergesIff(b: Broker, orgs: seq<string>, pairs: set<Pair>, retrieved: set<Entry>, wanted: set<Entry>,
                     src: set<Entry>, dst: set<Entry>)
    requires Updating(b, orgs, pairs, retrieved, wanted, src, dst)
    ensures Converges(b, orgs, pairs, wanted, src, dst) <==>
            forall s, p, o :: Owns(b, s, p) ==> MayConverge(b, orgs, pairs, wanted, s, p, o)
  {
    forall s, p, o | Owns(b, s, p)
      ensures ReachedAt(b, orgs, pairs, wanted, src, dst, p, o) <==> MayConverge(b, orgs, pairs, wanted, s, p, o)
    {
      UpdateEndsWith(b, orgs, pairs, retrieved, wanted, src, dst, s, p, o);
      WantedIff(b, orgs, wanted, s, p, o);
    }
  }

  /** No pair of a service retrieved bare is visible without being wanted, and no plan with a lone
      visibility is wanted where it is not visible. */
  ghost predicate MayConvergeByName(b: Broker, orgs: seq<string>, pairs: set<Pair>, wanted: set<Entry>,
                                    s: Service, p: Plan, o: string)
  {
    var isWanted := ExpandedTo(b, orgs, wanted, (p.guid, o));
    if RetrievedBare(s, orgs, pairs) then (p.guid, o) in pairs ==> isWanted
    else HasLone(s, orgs, pairs, p) && o in orgs && isWanted ==> (p.guid, o) in pairs
  }

  /** For wanted lists written with labels and plan names the condition is simpler. */
  lemma ConvergesByNameIff(b: Broker, orgs: seq<string>, pairs: set<Pair>, retrieved: set<Entry>, wanted: set<Entry>,
                           src: set<Entry>, dst: set<Entry>)
    requires Updating(b, orgs, pairs, retrieved, wanted, src, dst)
    requires forall e :: e in wanted ==> WellNamed(b, e)
    ensures Converges(b, orgs, pairs, wanted, src, dst) <==>
            forall s, p, o :: Owns(b, s, p) ==> MayConvergeByName(b, orgs, pairs, wanted, s, p, o)
  {
    ConvergesIff(b, orgs, pairs, retrieved, wanted, src, dst);
    forall s, p, o | Owns(b, s, p)
      ensures MayConverge(b, orgs, pairs, wanted, s, p, o) <==> MayConvergeByName(b, orgs, pairs, wanted, s, p, o)
    {
      EndsAsWantedIff(b, orgs, pairs, wanted, s, p, o);
    }
  }

  /** On one pair, and without the lists an update works with. */
  lemma EndsAsWantedIff(b: Broker, orgs: seq<string>, pairs: set<Pair>, wanted: set<Entry>, s: Service, p: Plan,
                        o: string)
    requires WellFormed(b) && OrgsWellFormed(orgs) && OrgsKnown(orgs, pairs) && Owns(b, s, p)
    requires forall e :: e in wanted ==> WellNamed(b, e)
    ensures (EndsVisible(b, orgs, pairs, wanted, s, p, o) <==> ExpandedTo(b, orgs, wanted, (p.guid, o)))
            <==> MayConvergeByName(b, orgs, pairs, wanted, s, p, o)
    ensures MayConverge(b, orgs, pairs, wanted, s, p, o) <==> MayConvergeByName(b, orgs, pairs, wanted, s, p, o)
  {
    NoAliases(b, orgs, wanted, s, p, o);
    WantedIff(b, orgs, wanted, s, p, o);
    assert (p.guid, o) in pairs ==> (p.guid, o).1 in orgs;
  }

  lemma NoAliases(b: Broker, orgs: seq<string>, wanted: set<Entry>, s: Service, p: Plan, o: string)
    requires WellFormed(b) && OrgsWellFormed(orgs) && Owns(b, s, p)
    requires forall e :: e in wanted ==> WellNamed(b, e)
    ensures !WantedByAlias(b, orgs, wanted, s, p, o)
  {
    forall e | e in wanted && !e.IsBare() && Denotes(b, orgs, Widened(e), (p.guid, o))
      ensures e.service == s.name && (e.plan == "" || e.plan == p.name)
    {
      var t :| t in b.services && e.service == t.name && (e.plan == "" || exists q :: q in t.plans && e.plan == q.name);
      var q := DenotesOnlyOwn(b, orgs, t, Widened(e), (p.guid, o));
      assert t == s && q == p;
      DenotesOwn(b, orgs, s, p, Widened(e), o);
      assert ServiceWellFormed(b, s);
    }
  }

  /** A plan with a lone visibility is granted to no other org. */
  lemma LoneStaysLone(b: Broker, orgs: seq<string>, pairs: set<Pair>, wanted: set<Entry>, s: Service, p: Plan,
                      o: string)
    requires WellFormed(b) && OrgsWellFormed(orgs) && Owns(b, s, p) && forall e :: e in wanted ==> WellNamed(b, e)
    requires !RetrievedBare(s, orgs, pairs) && HasLone(s, orgs, pairs, p) && o in orgs && (p.guid, o) !in pairs
    ensures forall retrieved, src, dst :: Updating(b, orgs, pairs, retrieved, wanted, src, dst) ==>
              !After(b, orgs, pairs, src, dst, (p.guid, o))
  {
    NoAliases(b, orgs, wanted, s, p, o);
    forall retrieved, src, dst | Updating(b, orgs, pairs, retrieved, wanted, src, dst)
      ensures !After(b, orgs, pairs, src, dst, (p.guid, o))
    {
      UpdateEndsWith(b, orgs, pairs, retrieved, wanted, src, dst, s, p, o);
    }
  }

  /** So convergence can fail: here a plan visible to one org is wanted in all of them, and its lone
      visibility, read back as the plan in every org, keeps it from the others. */
  lemma LoneVisibilityBlocksGrants() returns (b: Broker, orgs: seq<string>, pairs: set<Pair>, wanted: set<Entry>,
                                              x: Pair)
    ensures WellFormed(b) && OrgsWellFormed(orgs) && OrgsKnown(orgs, pairs) && NoPublicPlan(b)
    ensures forall e :: e in wanted ==> WellNamed(b, e) && e.IsOneSided()
    ensures x !in pairs && DenotedBy(b, orgs, wanted, x)
    ensures forall retrieved, src, dst :: Updating(b, orgs, pairs, retrieved, wanted, src, dst) ==>
              !After(b, orgs, pairs, src, dst, x)
  {
    var s, p, q, o, o';
    b, s, p, q, orgs, o, o' := Sample(false);
    pairs, wanted, x := {(p.guid, o)}, {Entry(s.name, p.name, "")}, (p.guid, o');
    SampleWellFormed(b, s, p, q, orgs, o, o');
    OneVisibility(s, orgs, pairs, p, q, o, o');
    OneWanted(b, orgs, s, p, Entry(s.name, p.name, ""), o');
    LoneStaysLone(b, orgs, pairs, wanted, s, p, o');
  }

  /** A broker with one service of two plans, the first of which may be public, and two orgs. */
  ghost predicate IsSample(b: Broker, s: Service, p: Plan, q: Plan, orgs: seq<string>, o: string, o': string) {
    && b.services == [s] && s.plans == [p, q] && s.guid != "" && s.guid != s.name && !q.public
    && p.guid != "" && q.guid != "" && p.name != "" && q.name != ""
    && p.serviceGuid == s.guid == q.serviceGuid
    && p.guid != q.guid && p.name != q.name && p.name != q.guid && q.name != p.guid
    && orgs == [o, o'] && |o| == |o'| > 0 && o != o'
  }

  lemma Sample(public: bool) returns (b: Broker, s: Service, p: Plan, q: Plan, orgs: seq<string>, o: string, o': string)
    ensures IsSample(b, s, p, q, orgs, o, o') && p.public == public
  {
    p, q := Plan("p1", "small", "s1", public), Plan("p2", "large", "s1", false);
    s, o, o' := Service("s1", "db", [p, q]), "o1", "o2";
    b, orgs := Broker("broker", [s]), [o, o'];
    assert "p1"[1] != "p2"[1] && "o1"[1] != "o2"[1] && "small"[0] != "large"[0] && "s1"[0] != "db"[0];
    assert |"small"| != |"p2"| && |"large"| != |"p1"|;
  }

  lemma SampleWellFormed(b: Broker, s: Service, p: Plan, q: Plan, orgs: seq<string>, o: string, o': string)
    requires IsSample(b, s, p, q, orgs, o, o')
    ensures WellFormed(b) && Owns(b, s, p) && Owns(b, s, q)
    ensures FindService(b.services, s.guid) == Some(s) == FindService(b.services, s.name)
    ensures FindPlan(s.guid, s.plans, p.name) == Some(p)
    ensures OrgsWellFormed(orgs) && o in orgs && o' in orgs
    ensures !p.public ==> NoPublicPlan(b)
  {
    TwoPlansWellFormed(b, s, p, q);
    TwoOrgs(orgs, o, o');
  }

  lemma TwoOrgs(orgs: seq<string>, o: string, o': string)
    requires orgs == [o, o'] && |o| == |o'| > 0
    ensures OrgsWellFormed(orgs) && o in orgs && o' in orgs
  {
    assert orgs[0] == o && orgs[1] == o';
  }

  lemma OneVisibility(s: Service, orgs: seq<string>, pairs: set<Pair>, p: Plan, q: Plan, o: string, o': string)
    requires s.plans == [p, q] && p.guid != q.guid && !p.public && !q.public
    requires pairs == {(p.guid, o)} && o in orgs && o' in orgs && o != o'
    ensures !HasPublicPlan(s) && !RetrievedBare(s, orgs, pairs) && HasLone(s, orgs, pairs, p)
    ensures OrgsKnown(orgs, pairs) && (p.guid, o') !in pairs
  {
    assert p in s.plans && q in s.plans;
    assert (p.guid, o') !in pairs && (q.guid, o) !in pairs;
    assert !Everywhere(orgs, pairs, p.guid) && !Whole(s, orgs, pairs, o);
  }

  lemma OneWanted(b: Broker, orgs: seq<string>, s: Service, p: Plan, e: Entry, o: string)
    requires WellFormed(b) && Owns(b, s, p) && e == Entry(s.name, p.name, "") && o in orgs
    ensures WellNamed(b, e) && DenotedBy(b, orgs, {e}, (p.guid, o))
  {
    assert ServiceWellFormed(b, s);
    EntryDenotesIff(b, orgs, e, s, p, o);
    assert Denotes(b, orgs, e, (p.guid, o));
  }

  lemma TwoPlansWellFormed(b: Broker, s: Service, p: Plan, q: Plan)
    requires b.services == [s] && s.plans == [p, q] && s.guid != ""
    requires p.guid != "" && q.guid != "" && p.name != "" && q.name != ""
    requires p.serviceGuid == s.guid == q.serviceGuid
    requires p.guid != q.guid && p.name != q.name && p.name != q.guid && q.name != p.guid
    ensures WellFormed(b) && Owns(b, s, p) && Owns(b, s, q)
    ensures FindService(b.services, s.name) == Some(s) == FindService(b.services, s.guid)
    ensures FindPlan(s.guid, s.plans, p.name) == Some(p)
  {
    assert s.plans[1..] == [q];
    assert FindPlan(s.guid, [q], q.name) == Some(q);
    assert forall x :: x in s.plans <==> x == p || x == q;
    assert s in b.services && p in s.plans && q in s.plans;
  }

  /** From a recoverable state, whatever names the wanted entries use: what was visible stays exactly if
      it is wanted under its label and plan name, and the rest becomes visible exactly if it is wanted. */
  lemma KeptIffNamed(b: Broker, orgs: seq<string>, pairs: set<Pair>, retrieved: set<Entry>, wanted: set<Entry>,
                     src: set<Entry>, dst: set<Entry>, s: Service, p: Plan, o: string)
    requires Updating(b, orgs, pairs, retrieved, wanted, src, dst) && Recoverable(b, orgs, pairs) && Owns(b, s, p)
    ensures After(b, orgs, pairs, src, dst, (p.guid, o)) <==>
            if (p.guid, o) in pairs then WantedByName(orgs, wanted, s, p, o)
            else ExpandedTo(b, orgs, wanted, (p.guid, o))
  {
    UpdateEndsWith(b, orgs, pairs, retrieved, wanted, src, dst, s, p, o);
    assert (p.guid, o) in pairs ==> (p.guid, o).1 in orgs;
    assert PlansRecoverable(s, orgs, pairs) && !HasLone(s, orgs, pairs, p);
  }

  /** So naming a service by its guid can cost access: here an org has every plan of the service and
      that is what is wanted, and the update revokes it. */
  lemma GuidRevokesWanted() returns (b: Broker, orgs: seq<string>, pairs: set<Pair>, wanted: set<Entry>, x: Pair)
    ensures WellFormed(b) && OrgsWellFormed(orgs) && OrgsKnown(orgs, pairs) && Recoverable(b, orgs, pairs)
    ensures forall e :: e in wanted ==> e.IsOneSided() && FindService(b.services, e.service).Some?
    ensures x in pairs && DenotedBy(b, orgs, wanted, x)
    ensures forall retrieved, src, dst :: Updating(b, orgs, pairs, retrieved, wanted, src, dst) ==>
              !After(b, orgs, pairs, src, dst, x)
  {
    var s, p, q, o, o';
    b, s, p, q, orgs, o, o' := Sample(false);
    var e := Entry(s.guid, "", o);
    pairs, wanted, x := {(p.guid, o), (q.guid, o)}, {e}, (p.guid, o);
    SampleWellFormed(b, s, p, q, orgs, o, o');
    WholeOrg(b, s, orgs, pairs, p, q, o, o');
    EntryDenotesIff(b, orgs, e, s, p, o);
    assert Denotes(b, orgs, e, x);
    forall retrieved, src, dst | Updating(b, orgs, pairs, retrieved, wanted, src, dst)
      ensures !After(b, orgs, pairs, src, dst, x)
    {
      KeptIffNamed(b, orgs, pairs, retrieved, wanted, src, dst, s, p, o);
    }
  }

  lemma WholeOrg(b: Broker, s: Service, orgs: seq<string>, pairs: set<Pair>, p: Plan, q: Plan, o: string, o': string)
    requires b.services == [s] && s.plans == [p, q] && !p.public && !q.public
    requires pairs == {(p.guid, o), (q.guid, o)} && o in orgs && o' in orgs && o != o'
    ensures OrgsKnown(orgs, pairs) && Recoverable(b, orgs, pairs)
  {
    assert (p.guid, o') !in pairs && (q.guid, o') !in pairs;
    assert !Everywhere(orgs, pairs, p.guid) && !Everywhere(orgs, pairs, q.guid);
    assert p in s.plans && Whole(s, orgs, pairs, o);
    assert forall t :: t in b.services <==> t == s;
  }

  /** When retrieval yields one-sided entries and each wanted entry names exactly one of plan and org,
      the update ends with the denotation of the wanted entries, whatever the start. */
  lemma UpdateReachesWanted(b: Broker, orgs: seq<string>, pairs: set<Pair>, retrieved: set<Entry>, wanted: set<Entry>,
                            src: set<Entry>, dst: set<Entry>, x: Pair)
    requires Updating(b, orgs, pairs, retrieved, wanted, src, dst)
    requires forall e :: e in wanted ==> WellNamed(b, e) && e.IsOneSided()
    requires Recoverable(b, orgs, pairs)
    ensures After(b, orgs, pairs, src, dst, x) <==>
            if IsPlanOf(b, x.0) then DenotedBy(b, orgs, wanted, x) else x in pairs
  {
    if IsPlanOf(b, x.0) {
      var s, p :| Owns(b, s, p) && p.guid == x.0;
      KeptIffNamed(b, orgs, pairs, retrieved, wanted, src, dst, s, p, x.1);
      WantedIff(b, orgs, wanted, s, p, x.1);
      NoAliases(b, orgs, wanted, s, p, x.1);
      OneSidedKeepMeaning(b, orgs, wanted, x);
    } else {
      DenotesNoOther(b, orgs, dst - src, x);
      DenotesNoOther(b, orgs, src - dst, x);
    }
  }

  /** If the snapshot still shows a public plan, nothing of its service counts as retrieved: the update
      makes the plans non-public but revokes no visibility of the service, wanted or not. */
  lemma StalePublicFlagKeepsVisibilities(b: Broker, orgs: seq<string>, pairs: set<Pair>, retrieved: set<Entry>,
                                         wanted: set<Entry>, src: set<Entry>, dst: set<Entry>, s: Service,
                                         p: Plan, o: string)
    requires Updating(b, orgs, pairs, retrieved, wanted, src, dst)
    requires Owns(b, s, p) && HasPublicPlan(s) && (p.guid, o) in pairs
    ensures After(b, orgs, pairs, src, dst, (p.guid, o))
  {
    UpdateEndsWith(b, orgs, pairs, retrieved, wanted, src, dst, s, p, o);
  }

  /** So what is not wanted can stay: here only the plan that was public is wanted, and the visibility of
      the other plan is not revoked. */
  lemma StaleFlagKeepsUnwanted() returns (b: Broker, orgs: seq<string>, pairs: set<Pair>, wanted: set<Entry>, x: Pair)
    ensures WellFormed(b) && OrgsWellFormed(orgs) && OrgsKnown(orgs, pairs)
    ensures forall e :: e in wanted ==> WellNamed(b, e) && e.IsOneSided()
    ensures IsPlanOf(b, x.0) && x in pairs && !DenotedBy(b, orgs, wanted, x)
    ensures forall retrieved, src, dst :: Updating(b, orgs, pairs, retrieved, wanted, src, dst) ==>
              After(b, orgs, pairs, src, dst, x)
  {
    var s, p, q, o, o';
    b, s, p, q, orgs, o, o' := Sample(true);
    var e := Entry(s.name, p.name, "");
    pairs, wanted, x := {(q.guid, o)}, {e}, (q.guid, o);
    SampleWellFormed(b, s, p, q, orgs, o, o');
    OneWanted(b, orgs, s, p, e, o);
    EntryDenotesIff(b, orgs, e, s, q, o);
    assert p in s.plans && HasPublicPlan(s);
    forall retrieved, src, dst | Updating(b, orgs, pairs, retrieved, wanted, src, dst)
      ensures After(b, orgs, pairs, src, dst, x)
    {
      StalePublicFlagKeepsVisibilities(b, orgs, pairs, retrieved, wanted, src, dst, s, q, o);
    }
  }

  // ----- Entries an update treats differently from a creation -----

  /** Entry e grants plan p of s in org o when it is expanded, o being a listed org. */
  ghost predicate Reaches(b: Broker, e: Entry, s: Service, p: Plan, o: string) {
    && FindService(b.services, e.service) == Some(s)
    && if e.plan != "" then FindPlan(s.guid, s.plans, e.plan) == Some(p) else e.orgId == o
  }

  /** The plan of e is wanted in every listed org anyway, and the org of e is listed or wanted whole. */
  ghost predicate FullCovered(b: Broker, orgs: seq<string>, wanted: set<Entry>, e: Entry) {
    forall s, p :: Owns(b, s, p) && FindService(b.services, e.service) == Some(s)
                   && FindPlan(s.guid, s.plans, e.plan) == Some(p) ==>
      && (forall o :: o in orgs ==> DenotedBy(b, orgs, wanted, (p.guid, o)))
      && (e.orgId in orgs || exists e' :: e' in wanted && e'.plan == "" && Reaches(b, e', s, p, e.orgId))
  }

  /** Every plan of the service is wanted in every listed org by an entry that is not bare. */
  ghost predicate BareCovered(b: Broker, orgs: seq<string>, wanted: set<Entry>, e: Entry) {
    forall s, p, o :: Owns(b, s, p) && FindService(b.services, e.service) == Some(s) && o in orgs ==>
      exists e' :: e' in wanted && Reaches(b, e', s, p, o)
  }

  ghost predicate AllCovered(b: Broker, orgs: seq<string>, wanted: set<Entry>) {
    forall e :: e in wanted ==>
      (e.IsFull() ==> FullCovered(b, orgs, wanted, e)) && (e.IsBare() ==> BareCovered(b, orgs, wanted, e))
  }

  ghost predicate KeepsMeaning(b: Broker, orgs: seq<string>, wanted: set<Entry>) {
    forall s, p, o :: Owns(b, s, p) ==> SameMeaningAt(b, orgs, wanted, p, o)
  }

  ghost predicate SameMeaningAt(b: Broker, orgs: seq<string>, wanted: set<Entry>, p: Plan, o: string) {
    ExpandedTo(b, orgs, wanted, (p.guid, o)) <==> DenotedBy(b, orgs, wanted, (p.guid, o))
  }

  /** What an expanded entry grants, in terms of the entry. */
  lemma WidenedDenotesIff(b: Broker, orgs: seq<string>, e: Entry, s: Service, p: Plan, o: string)
    requires WellFormed(b) && OrgsWellFormed(orgs) && Owns(b, s, p)
    ensures !e.IsBare() && Denotes(b, orgs, Widened(e), (p.guid, o)) <==>
            Reaches(b, e, s, p, o) && if e.plan != "" then o in orgs else o != ""
  {
    EntryDenotesIff(b, orgs, Widened(e), s, p, o);
  }

  lemma EntryDenotesIff(b: Broker, orgs: seq<string>, e: Entry, s: Service, p: Plan, o: string)
    requires WellFormed(b) && Owns(b, s, p)
    ensures Denotes(b, orgs, e, (p.guid, o)) <==>
            FindService(b.services, e.service) == Some(s) && Selects(s, e, p) && InOrgs(orgs, e, o)
  {
    var found := FindService(b.services, e.service);
    if Denotes(b, orgs, e, (p.guid, o)) {
      var q :| q in found.value.plans && q.guid == p.guid && Selects(found.value, e, q);
      assert Owns(b, found.value, q);
    }
  }

  lemma CoveredIsSame(b: Broker, orgs: seq<string>, wanted: set<Entry>, s: Service, p: Plan, o: string)
    requires WellFormed(b) && OrgsWellFormed(orgs) && Owns(b, s, p) && AllCovered(b, orgs, wanted)
    ensures SameMeaningAt(b, orgs, wanted, p, o)
  {
    var x := (p.guid, o);
    ExpandedToIff(b, orgs, wanted, x);
    if ExpandedTo(b, orgs, wanted, x) {
      var e :| e in wanted && !e.IsBare() && Denotes(b, orgs, Widened(e), x);
      WidenedDenotesIff(b, orgs, e, s, p, o);
      EntryDenotesIff(b, orgs, e, s, p, o);
      assert e.IsFull() ==> FullCovered(b, orgs, wanted, e);
    }
    if DenotedBy(b, orgs, wanted, x) {
      var e :| e in wanted && Denotes(b, orgs, e, x);
      EntryDenotesIff(b, orgs, e, s, p, o);
      var e' := e;
      if e.IsBare() {
        assert BareCovered(b, orgs, wanted, e);
        e' :| e' in wanted && Reaches(b, e', s, p, o);
      } else if e.IsFull() && e.orgId !in orgs {
        assert FullCovered(b, orgs, wanted, e);
        e' :| e' in wanted && e'.plan == "" && Reaches(b, e', s, p, e.orgId);
      }
      WidenedDenotesIff(b, orgs, e', s, p, o);
    }
  }

  lemma SameIsCovered(b: Broker, orgs: seq<string>, wanted: set<Entry>, e: Entry)
    requires WellFormed(b) && OrgsWellFormed(orgs) && KeepsMeaning(b, orgs, wanted) && e in wanted
    ensures e.IsFull() ==> FullCovered(b, orgs, wanted, e)
    ensures e.IsBare() ==> BareCovered(b, orgs, wanted, e)
  {
    forall s, p | Owns(b, s, p) && FindService(b.services, e.service) == Some(s) && Selects(s, e, p)
      ensures e.IsFull() ==> forall o :: o in orgs ==> DenotedBy(b, orgs, wanted, (p.guid, o))
      ensures e.IsFull() && e.orgId !in orgs ==>
                exists e' :: e' in wanted && e'.plan == "" && Reaches(b, e', s, p, e.orgId)
      ensures e.IsBare() ==> forall o :: o in orgs ==> exists e' :: e' in wanted && Reaches(b, e', s, p, o)
    {
      if e.IsFull() {
        forall o | o in orgs
          ensures DenotedBy(b, orgs, wanted, (p.guid, o))
        {
          WidenedDenotesIff(b, orgs, e, s, p, o);
          ExpandedToIff(b, orgs, wanted, (p.guid, o));
          assert SameMeaningAt(b, orgs, wanted, p, o);
        }
        if e.orgId !in orgs {
          var e' := ReachedBy(b, orgs, wanted, e, s, p, e.orgId);
        }
      }
      if e.IsBare() {
        forall o | o in orgs
          ensures exists e' :: e' in wanted && Reaches(b, e', s, p, o)
        {
          var e' := ReachedBy(b, orgs, wanted, e, s, p, o);
        }
      }
    }
  }

  /** A pair that e denotes is reached by an entry that expands to it. */
  lemma ReachedBy(b: Broker, orgs: seq<string>, wanted: set<Entry>, e: Entry, s: Service, p: Plan, o: string)
    returns (e': Entry)
    requires WellFormed(b) && OrgsWellFormed(orgs) && KeepsMeaning(b, orgs, wanted) && e in wanted
    requires Owns(b, s, p) && FindService(b.services, e.service) == Some(s) && Selects(s, e, p) && InOrgs(orgs, e, o)
    ensures e' in wanted && Reaches(b, e', s, p, o) && (e'.plan != "" ==> o in orgs)
  {
    EntryDenotesIff(b, orgs, e, s, p, o);
    assert SameMeaningAt(b, orgs, wanted, p, o);
    ExpandedToIff(b, orgs, wanted, (p.guid, o));
    e' :| e' in wanted && !e'.IsBare() && Denotes(b, orgs, Widened(e'), (p.guid, o));
    WidenedDenotesIff(b, orgs, e', s, p, o);
  }

  /** An update takes an entry with plan and org for the plan in every org, and a bare entry for
      nothing.  For any wanted list, what it expands to is what it denotes if and only if other entries
      make up for that: each such plan is wanted in every org anyway, its own org is listed or wanted
      whole, and each plan of a service wanted bare is wanted in every org by other entries. */
  lemma UpdateKeepsMeaningIff(b: Broker, orgs: seq<string>, wanted: set<Entry>)
    requires WellFormed(b) && OrgsWellFormed(orgs)
    ensures KeepsMeaning(b, orgs, wanted) <==> AllCovered(b, orgs, wanted)
  {
    if AllCovered(b, orgs, wanted) {
      forall s, p, o | Owns(b, s, p)
        ensures SameMeaningAt(b, orgs, wanted, p, o)
      {
        CoveredIsSame(b, orgs, wanted, s, p, o);
      }
    }
    if KeepsMeaning(b, orgs, wanted) {
      forall e | e in wanted
        ensures (e.IsFull() ==> FullCovered(b, orgs, wanted, e)) && (e.IsBare() ==> BareCovered(b, orgs, wanted, e))
      {
        SameIsCovered(b, orgs, wanted, e);
      }
    }
  }

  /** So an update can grant what is not wanted: here, from no visibility at all, a plan wanted in one org
      becomes visible to the other one too. */
  lemma PlanAndOrgWidens() returns (b: Broker, orgs: seq<string>, wanted: set<Entry>, x: Pair)
    ensures WellFormed(b) && OrgsWellFormed(orgs) && NoPublicPlan(b)
    ensures forall e :: e in wanted ==> WellNamed(b, e) && e.IsFull() && e.orgId in orgs
    ensures IsPlanOf(b, x.0) && !DenotedBy(b, orgs, wanted, x) && !KeepsMeaning(b, orgs, wanted)
    ensures forall retrieved, src, dst :: Updating(b, orgs, {}, retrieved, wanted, src, dst) ==>
              After(b, orgs, {}, src, dst, x)
  {
    var s, p, q, o, o';
    b, s, p, q, orgs, o, o' := Sample(false);
    wanted, x := {Entry(s.name, p.name, o)}, (p.guid, o');
    SampleWellFormed(b, s, p, q, orgs, o, o');
    OneWidened(b, orgs, s, p, Entry(s.name, p.name, o), o');
    GrantedFromNothing(b, orgs, wanted, s, p, o');
  }

  lemma GrantedFromNothing(b: Broker, orgs: seq<string>, wanted: set<Entry>, s: Service, p: Plan, o: string)
    requires WellFormed(b) && OrgsWellFormed(orgs) && Owns(b, s, p) && ExpandedTo(b, orgs, wanted, (p.guid, o))
    ensures forall retrieved, src, dst :: Updating(b, orgs, {}, retrieved, wanted, src, dst) ==>
              After(b, orgs, {}, src, dst, (p.guid, o))
  {
    assert !CountsAsGranted(s, orgs, {}, p, o);
    forall retrieved, src, dst | Updating(b, orgs, {}, retrieved, wanted, src, dst)
      ensures After(b, orgs, {}, src, dst, (p.guid, o))
    {
      UpdateEndsWith(b, orgs, {}, retrieved, wanted, src, dst, s, p, o);
    }
  }

  lemma OneWidened(b: Broker, orgs: seq<string>, s: Service, p: Plan, e: Entry, o: string)
    requires WellFormed(b) && OrgsWellFormed(orgs) && Owns(b, s, p) && e == Entry(s.name, p.name, e.orgId)
    requires e.orgId != "" && o in orgs && o != e.orgId
    ensures WellNamed(b, e) && !DenotedBy(b, orgs, {e}, (p.guid, o)) && ExpandedTo(b, orgs, {e}, (p.guid, o))
    ensures !KeepsMeaning(b, orgs, {e})
  {
    assert ServiceWellFormed(b, s);
    EntryDenotesIff(b, orgs, e, s, p, o);
    WidenedDenotesIff(b, orgs, e, s, p, o);
    ExpandedToIff(b, orgs, {e}, (p.guid, o));
    assert !SameMeaningAt(b, orgs, {e}, p, o);
  }
}
