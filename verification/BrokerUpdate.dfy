/** The service-access part of Update in resources/service_broker.go. */
module BrokerUpdate {
  import opened Wrappers
  import opened ServiceAccess
  import opened AccessTheory
  import opened UpdateTheory
  import opened CloudMarket
  import opened BrokerRequests
  import opened BrokerResource
  import opened BrokerGrants

  // ----- The two loops -----

  ghost predicate DenotedAmong(b: Broker, orgs: seq<string>, ts: seq<Entry>, n: nat, x: Pair)
    requires n <= |ts|
  {
    exists j :: 0 <= j < n && Denotes(b, orgs, ts[j], x)
  }

  lemma DenotedNext(b: Broker, orgs: seq<string>, ts: seq<Entry>, i: nat, x: Pair)
    requires i < |ts|
    ensures DenotedAmong(b, orgs, ts, i + 1, x) <==> DenotedAmong(b, orgs, ts, i, x) || Denotes(b, orgs, ts[i], x)
  {
  }

  lemma DenotedAmongMore(b: Broker, orgs: seq<string>, ts: seq<Entry>)
    ensures forall n, x :: 0 <= n <= |ts| && DenotedAmong(b, orgs, ts, n, x) ==> DenotedBy(b, orgs, Entries(ts), x)
    ensures forall x :: DenotedBy(b, orgs, Entries(ts), x) ==> DenotedAmong(b, orgs, ts, |ts|, x)
  {
  }

  ghost predicate AllFull(ts: seq<Entry>) { forall t :: t in ts ==> t.IsFull() }

  ghost predicate AllGrantable(b: Broker, orgs: seq<string>, ts: seq<Entry>) {
    forall t :: t in ts ==> EntryGrantable(b, orgs, t)
  }

  /** The service, plan and org of t exist. */
  ghost predicate EntryGrantable(b: Broker, orgs: seq<string>, t: Entry) {
    var found := FindService(b.services, t.service);
    found.Some? && Grantable(found.value, orgs, t)
  }

  /** One turn of the create loop. */
  method CreateOne(client: Marketplace, b: Broker, t: Entry) returns (err: Option<string>)
    requires client.Valid() && t.IsFull()
    modifies client`rows, client`next, client`faults, client`sent
    ensures client.Valid() && client.faults >= old(client.faults)
    ensures err.None? ==> client.faults == old(client.faults) && EntryGrantable(b, client.orgs, t)
    ensures err.Some? ==> client.faults > old(client.faults) || !EntryGrantable(b, client.orgs, t)
    ensures forall x :: x in client.Pairs() <==>
              x in old(client.Pairs()) || (err.None? && Denotes(b, client.orgs, t, x))
  {
    var found := FindService(b.services, t.service);
    if found.None? {
      return Some("service does not exist");
    }
    err := UpdateServiceAccessWithPlanAndOrg(client, found.value, t);
    forall x
      ensures Names(found.value, t, x) <==> Denotes(b, client.orgs, t, x)
    {
      NamesIsDenotes(b, client.orgs, found.value, t, x);
    }
  }

  ghost predicate GrantableUpTo(b: Broker, orgs: seq<string>, ts: seq<Entry>, n: nat)
    requires n <= |ts|
  {
    forall j :: 0 <= j < n ==> EntryGrantable(b, orgs, ts[j])
  }

  /** The create loop.  It stops at the first entry that cannot be granted, after the first n. */
  method CreateAll(client: Marketplace, b: Broker, ts: seq<Entry>) returns (err: Option<string>, ghost n: nat)
    requires client.Valid() && AllFull(ts)
    modifies client`rows, client`next, client`faults, client`sent
    ensures client.Valid() && client.faults >= old(client.faults)
    ensures err.None? ==> client.faults == old(client.faults)
    ensures err.Some? ==> client.faults > old(client.faults) || !AllGrantable(b, client.orgs, ts)
    ensures n <= |ts| && (err.None? <==> n == |ts|) && GrantableUpTo(b, client.orgs, ts, n)
    ensures forall x :: x in client.Pairs() <==> x in old(client.Pairs()) || DenotedAmong(b, client.orgs, ts, n, x)
  {
    for i := 0 to |ts|
      invariant client.Valid() && client.faults == old(client.faults)
      invariant GrantableUpTo(b, client.orgs, ts, i)
      invariant forall x :: x in client.Pairs() <==> x in old(client.Pairs()) || DenotedAmong(b, client.orgs, ts, i, x)
    {
      assert ts[i] in ts;
      err := CreateOne(client, b, ts[i]);
      if err.Some? {
        n := i;
        return;
      }
      forall x
        ensures DenotedAmong(b, client.orgs, ts, i + 1, x)
                <==> DenotedAmong(b, client.orgs, ts, i, x) || Denotes(b, client.orgs, ts[i], x)
      {
        DenotedNext(b, client.orgs, ts, i, x);
      }
    }
    return None, |ts|;
  }

  /** Looks the visibility of a plan in an org up and deletes it, if there is one. */
  method DeletePair(client: Marketplace, plan: string, org: string) returns (err: Option<string>)
    requires client.Valid()
    modifies client`rows, client`faults, client`sent
    ensures client.Valid()
    ensures client.faults == if err.None? then old(client.faults) else old(client.faults) + 1
    ensures client.Pairs() == if err.None? then old(client.Pairs()) - {(plan, org)} else old(client.Pairs())
  {
    var rows := client.Search(plan, Some(org));
    if rows.Failure? {
      return Some(rows.error);
    }
    MatchingEmptyIff(client.rows, plan, org);
    if |rows.value| == 0 {
      return None;
    }
    assert rows.value[0] in rows.value;
    var ok := client.DeleteVisibility(rows.value[0].guid);
    return if ok then None else Some("visibility not deleted");
  }

  /** One turn of the delete loop. */
  method DeleteOne(client: Marketplace, b: Broker, t: Entry) returns (err: Option<string>)
    requires client.Valid() && t.IsFull()
    modifies client`rows, client`faults, client`sent
    ensures client.Valid() && client.faults >= old(client.faults)
    ensures err.None? ==> client.faults == old(client.faults)
    ensures err.Some? ==> client.faults > old(client.faults) || !EntryGrantable(b, client.orgs, t)
    ensures err.Some? ==> client.Pairs() == old(client.Pairs())
    ensures err.None? ==> forall x :: x in client.Pairs() <==>
              x in old(client.Pairs()) && !Denotes(b, client.orgs, t, x)
  {
    var found := FindService(b.services, t.service);
    if found.None? {
      return Some("service does not exist");
    }
    var plan := FindPlan(found.value.guid, found.value.plans, t.plan);
    if plan.None? {
      return Some("plan does not exist");
    }
    err := DeletePair(client, plan.value.guid, t.orgId);
    forall x
      ensures Denotes(b, client.orgs, t, x) <==> x == (plan.value.guid, t.orgId)
    {
      NamesIsDenotes(b, client.orgs, found.value, t, x);
    }
  }

  /** The delete loop.  It stops at the first entry that cannot be deleted, after the first n. */
  method DeleteAll(client: Marketplace, b: Broker, ts: seq<Entry>) returns (err: Option<string>, ghost n: nat)
    requires client.Valid() && AllFull(ts)
    modifies client`rows, client`faults, client`sent
    ensures client.Valid() && client.faults >= old(client.faults)
    ensures err.None? ==> client.faults == old(client.faults)
    ensures err.Some? ==> client.faults > old(client.faults) || !AllGrantable(b, client.orgs, ts)
    ensures n <= |ts| && (err.None? <==> n == |ts|)
    ensures forall x :: x in client.Pairs() <==> x in old(client.Pairs()) && !DenotedAmong(b, client.orgs, ts, n, x)
  {
    for i := 0 to |ts|
      invariant client.Valid() && client.faults == old(client.faults)
      invariant forall x :: x in client.Pairs() <==> x in old(client.Pairs()) && !DenotedAmong(b, client.orgs, ts, i, x)
    {
      assert ts[i] in ts;
      err := DeleteOne(client, b, ts[i]);
      if err.Some? {
        n := i;
        return;
      }
      forall x
        ensures DenotedAmong(b, client.orgs, ts, i + 1, x)
                <==> DenotedAmong(b, client.orgs, ts, i, x) || Denotes(b, client.orgs, ts[i], x)
      {
        DenotedNext(b, client.orgs, ts, i, x);
      }
    }
    return None, |ts|;
  }

  // ----- The update -----

  /** The service exists, and so does everything the entry expands to. */
  ghost predicate UpdateResolves(b: Broker, orgs: seq<string>, e: Entry) {
    Known(b, e) && forall t :: IsExpansion(b, orgs, e, t) ==> EntryGrantable(b, orgs, t)
  }

  /** Nothing but dst - src has been granted, and nothing but src - dst revoked. */
  ghost predicate Between(b: Broker, orgs: seq<string>, before: set<Pair>, src: set<Entry>, dst: set<Entry>,
          pairs: set<Pair>) {
    && (forall x :: x in pairs ==> x in before || DenotedBy(b, orgs, dst - src, x))
    && (forall x :: x in before && !DenotedBy(b, orgs, src - dst, x) ==> x in pairs)
  }

  /** Nothing has been revoked unless everything in dst - src exists and has been created. */
  ghost predicate CreatedFirst(b: Broker, orgs: seq<string>, before: set<Pair>, src: set<Entry>, dst: set<Entry>,
                               pairs: set<Pair>)
  {
    || (forall x :: x in before ==> x in pairs)
    || ((forall t :: t in dst - src ==> EntryGrantable(b, orgs, t))
        && forall x :: DenotedBy(b, orgs, dst - src, x) ==> x in pairs || DenotedBy(b, orgs, src - dst, x))
  }

  /** Creates dst - src, then deletes src - dst. */
  method ApplyDifference(client: Marketplace, b: Broker, src: seq<Entry>, dst: seq<Entry>) returns (err: Option<string>)
    requires client.Valid() && AllFull(src) && AllFull(dst)
    modifies client`rows, client`next, client`faults, client`sent
    ensures client.Valid() && client.faults >= old(client.faults)
    ensures err.None? ==> client.faults == old(client.faults)
    ensures err.Some? ==> client.faults > old(client.faults)
                          || !AllGrantable(b, client.orgs, src) || !AllGrantable(b, client.orgs, dst)
    ensures Between(b, client.orgs, old(client.Pairs()), Entries(src), Entries(dst), client.Pairs())
    ensures CreatedFirst(b, client.orgs, old(client.Pairs()), Entries(src), Entries(dst), client.Pairs())
    ensures err.None? ==> forall x :: x in client.Pairs() <==>
              After(b, client.orgs, old(client.Pairs()), Entries(src), Entries(dst), x)
  {
    var toDelete, toCreate := DiffServicesAccess(src, dst);
    PartOf(toDelete, src, dst);
    PartOf(toCreate, dst, src);
    if |toDelete| == 0 && |toCreate| == 0 {
      assert Entries(toDelete) == {} && Entries(toCreate) == {};
      return None;
    }
    DenotedAmongMore(b, client.orgs, toCreate);
    DenotedAmongMore(b, client.orgs, toDelete);
    ghost var n;
    err, n := CreateAll(client, b, toCreate);
    if err.Some? {
      return;
    }
    err, n := DeleteAll(client, b, toDelete);
    AllCreated(b, client.orgs, toCreate);
  }

  lemma AllCreated(b: Broker, orgs: seq<string>, ts: seq<Entry>)
    requires GrantableUpTo(b, orgs, ts, |ts|)
    ensures forall t :: t in Entries(ts) ==> EntryGrantable(b, orgs, t)
  {
  }

  lemma PartOf(part: seq<Entry>, whole: seq<Entry>, other: seq<Entry>)
    requires Entries(part) == Entries(whole) - Entries(other)
    ensures forall t :: t in part ==> t in whole
  {
    forall t | t in part
      ensures t in whole
    {
      assert t in Entries(part);
    }
  }

  lemma ExpansionsFull(b: Broker, orgs: seq<string>, es: seq<Entry>, ts: seq<Entry>)
    requires WellFormed(b) && OrgsWellFormed(orgs) && AreExpansions(b, orgs, Entries(es), Entries(ts))
    ensures AllFull(ts)
  {
    forall t | t in ts
      ensures t.IsFull()
    {
      assert t in Entries(ts);
      var e :| e in Entries(es) && IsExpansion(b, orgs, e, t);
      assert ServiceWellFormed(b, FindService(b.services, e.service).value);
    }
  }

  /** Retrieved entries resolve, so expanding and applying them can only fail by a lost request. */
  lemma RetrievedResolve(b: Broker, orgs: seq<string>, pairs: set<Pair>, es: seq<Entry>)
    requires WellFormed(b) && OrgsKnown(orgs, pairs) && AreRetrieved(b, orgs, pairs, Entries(es))
    ensures forall e :: e in es ==> UpdateResolves(b, orgs, e)
  {
    forall e | e in es
      ensures UpdateResolves(b, orgs, e)
    {
      assert e in Entries(es);
      var s :| s in b.services && RetrievedFrom(s, orgs, pairs, e);
      assert ServiceWellFormed(b, s);
      if e.plan == "" && e.orgId != "" {
        var p :| p in s.plans;
        assert (p.guid, e.orgId) in pairs && (p.guid, e.orgId).1 in orgs;
      }
    }
  }

  lemma ResolvedGrantable(b: Broker, orgs: seq<string>, es: seq<Entry>, ts: seq<Entry>)
    requires AreExpansions(b, orgs, Entries(es), Entries(ts))
    ensures AllGrantable(b, orgs, ts) || exists e :: e in es && !UpdateResolves(b, orgs, e)
  {
    if !AllGrantable(b, orgs, ts) {
      var t :| t in ts && !EntryGrantable(b, orgs, t);
      assert t in Entries(ts);
      var e :| e in Entries(es) && IsExpansion(b, orgs, e, t);
      assert e in es && !UpdateResolves(b, orgs, e);
    }
  }

  // ----- Who can use a plan afterwards -----

  ghost predicate IsPublic(m: map<string, bool>, plan: string) { plan in m && m[plan] }

  /** The org can use the plan: the controller has it public, or visible to the org. */
  ghost predicate CanUse(orgs: seq<string>, m: map<string, bool>, pairs: set<Pair>, plan: string, o: string) {
    o in orgs && (IsPublic(m, plan) || (plan, o) in pairs)
  }

  /** The snapshot b shows the flags m of the controller. */
  ghost predicate FlagsMatch(b: Broker, m: map<string, bool>) {
    forall s, p :: Owns(b, s, p) ==> (p.public <==> IsPublic(m, p.guid))
  }

  /** The flag of plan p of s once the flags are set: as the last entry for s says, or as before. */
  ghost predicate EndsPublic(b: Broker, m: map<string, bool>, wanted: seq<Entry>, s: Service, p: Plan) {
    match LastMention(b, wanted, s)
    case Some(e) => e.IsBare()
    case None => IsPublic(m, p.guid)
  }

  lemma EndsPublicIff(b: Broker, m: map<string, bool>, wanted: seq<Entry>, s: Service, p: Plan)
    requires WellFormed(b) && Owns(b, s, p)
    ensures IsPublic(PublicAfter(b, m, wanted), p.guid) <==> EndsPublic(b, m, wanted, s, p)
  {
    PublicIsLastMention(b, m, wanted, s, p);
  }

  /** Wanted entries by label and plan name, none with both plan and org, and none bare for a service
      that other entries are about. */
  ghost predicate PlainlyWanted(b: Broker, wanted: set<Entry>) {
    && (forall e :: e in wanted ==> WellNamed(b, e) && !e.IsFull())
    && (forall e, e' :: e in wanted && e' in wanted && e.service == e'.service ==> (e.IsBare() <==> e'.IsBare()))
  }

  lemma {:induction false} LastMentionIsIn(b: Broker, es: seq<Entry>, s: Service)
    ensures match LastMention(b, es, s)
            case Some(e) => e in es && FindService(b.services, e.service) == Some(s)
            case None => forall e :: e in es ==> FindService(b.services, e.service) != Some(s)
  {
    if es != [] {
      var init, last := es[..|es| - 1], es[|es| - 1];
      assert es == init + [last];
      LastMentionIsIn(b, init, s);
    }
  }

  /** With plainly wanted entries, on a service they mention: all bare, or what is denoted is expanded. */
  lemma MentionedMeaning(b: Broker, orgs: seq<string>, wanted: set<Entry>, s: Service, p: Plan, o: string, e: Entry)
    requires WellFormed(b) && OrgsWellFormed(orgs) && PlainlyWanted(b, wanted) && Owns(b, s, p)
    requires e in wanted && FindService(b.services, e.service) == Some(s)
    ensures e.IsBare() ==> (DenotedBy(b, orgs, wanted, (p.guid, o)) <==> o in orgs)
    ensures !e.IsBare() ==> (DenotedBy(b, orgs, wanted, (p.guid, o)) <==> ExpandedTo(b, orgs, wanted, (p.guid, o)))
  {
    var x := (p.guid, o);
    EntryDenotesIff(b, orgs, e, s, p, o);
    ExpandedToIff(b, orgs, wanted, x);
    forall e' | e' in wanted && (Denotes(b, orgs, e', x) || Denotes(b, orgs, Widened(e'), x))
      ensures e'.IsBare() <==> e.IsBare()
      ensures Widened(e') == e'
    {
      EntryDenotesIff(b, orgs, e', s, p, o);
      EntryDenotesIff(b, orgs, Widened(e'), s, p, o);
      SameLabel(b, s, e, e');
    }
    forall e' | e' in wanted && Denotes(b, orgs, e', x) && e'.IsBare()
      ensures o in orgs
    {
      EntryDenotesIff(b, orgs, e', s, p, o);
    }
  }

  lemma SameLabel(b: Broker, s: Service, e: Entry, e': Entry)
    requires WellFormed(b) && WellNamed(b, e) && WellNamed(b, e')
    requires FindService(b.services, e.service) == Some(s) == FindService(b.services, e'.service)
    ensures e.service == s.name == e'.service
  {
    var t :| t in b.services && e.service == t.name && (e.plan == "" || exists q :: q in t.plans && e.plan == q.name);
    var t' :| t' in b.services && e'.service == t'.name
              && (e'.plan == "" || exists q :: q in t'.plans && e'.plan == q.name);
    assert ServiceWellFormed(b, t) && ServiceWellFormed(b, t');
  }

  lemma UnmentionedMeaning(b: Broker, orgs: seq<string>, wanted: set<Entry>, s: Service, p: Plan, o: string)
    requires WellFormed(b) && OrgsWellFormed(orgs) && Owns(b, s, p)
    requires forall e :: e in wanted ==> FindService(b.services, e.service) != Some(s)
    ensures !DenotedBy(b, orgs, wanted, (p.guid, o)) && !ExpandedTo(b, orgs, wanted, (p.guid, o))
  {
    var x := (p.guid, o);
    ExpandedToIff(b, orgs, wanted, x);
    forall e | e in wanted
      ensures !Denotes(b, orgs, e, x) && !Denotes(b, orgs, Widened(e), x)
    {
      EntryDenotesIff(b, orgs, e, s, p, o);
      EntryDenotesIff(b, orgs, Widened(e), s, p, o);
    }
  }

  /** What the start must satisfy on plan p of s and org o, for plainly wanted entries.  A service that is
      wanted bare always ends well; one that is wanted otherwise must be able to converge; and of one
      that is not wanted the plan must not be public, nor visible when the service is retrieved bare. */
  ghost predicate MayGetAccess(b: Broker, orgs: seq<string>, m: map<string, bool>, pairs: set<Pair>, wanted: seq<Entry>,
                               s: Service, p: Plan, o: string)
  {
    match LastMention(b, wanted, s)
    case Some(e) => e.IsBare() || MayConvergeByName(b, orgs, pairs, Entries(wanted), s, p, o)
    case None => !IsPublic(m, p.guid) && !(RetrievedBare(s, orgs, pairs) && (p.guid, o) in pairs)
  }

  /** From any state and any flags, with plainly wanted entries: after a successful update an org's access
      to a plan of the broker is what the entries denote if and only if the start allows it. */
  lemma AccessIsWantedIff(b: Broker, orgs: seq<string>, m: map<string, bool>, pairs: set<Pair>, wanted: seq<Entry>,
                          s: Service, p: Plan, o: string)
    requires WellFormed(b) && OrgsWellFormed(orgs) && OrgsKnown(orgs, pairs) && Owns(b, s, p)
    requires PlainlyWanted(b, Entries(wanted)) && o in orgs
    ensures (EndsPublic(b, m, wanted, s, p) || EndsVisible(b, orgs, pairs, Entries(wanted), s, p, o)
             <==> DenotedBy(b, orgs, Entries(wanted), (p.guid, o)))
            <==> MayGetAccess(b, orgs, m, pairs, wanted, s, p, o)
  {
    LastMentionIsIn(b, wanted, s);
    EndsAsWantedIff(b, orgs, pairs, Entries(wanted), s, p, o);
    match LastMention(b, wanted, s)
    case Some(e) =>
      assert e in Entries(wanted);
      MentionedMeaning(b, orgs, Entries(wanted), s, p, o, e);
    case None =>
      UnmentionedMeaning(b, orgs, Entries(wanted), s, p, o);
      WantedIff(b, orgs, Entries(wanted), s, p, o);
  }

  /** A recoverable state whose flags the snapshot shows always allows it. */
  lemma AccessIsWanted(b: Broker, orgs: seq<string>, m: map<string, bool>, pairs: set<Pair>, wanted: seq<Entry>,
                       s: Service, p: Plan, o: string)
    requires WellFormed(b) && OrgsWellFormed(orgs) && OrgsKnown(orgs, pairs) && Owns(b, s, p)
    requires Recoverable(b, orgs, pairs) && FlagsMatch(b, m) && PlainlyWanted(b, Entries(wanted))
    ensures o in orgs && (EndsPublic(b, m, wanted, s, p) || EndsVisible(b, orgs, pairs, Entries(wanted), s, p, o))
            <==> o in orgs && DenotedBy(b, orgs, Entries(wanted), (p.guid, o))
  {
    if o in orgs {
      AccessIsWantedIff(b, orgs, m, pairs, wanted, s, p, o);
      assert !RetrievedBare(s, orgs, pairs) && PlansRecoverable(s, orgs, pairs);
      assert !HasPublicPlan(s) && !p.public && !HasLone(s, orgs, pairs, p);
    }
  }

  // ----- The whole update -----

  /** The visibilities of every plan of the broker are those UpdateTheory gives, whatever the start; rows
      of other brokers are as they were. */
  ghost predicate EndsAsTold(b: Broker, orgs: seq<string>, before: set<Pair>, wanted: set<Entry>, pairs: set<Pair>) {
    && (forall s, p, o :: Owns(b, s, p) ==>
          ((p.guid, o) in pairs <==> EndsVisible(b, orgs, before, wanted, s, p, o)))
    && (forall x: Pair :: !IsPlanOf(b, x.0) ==> (x in pairs <==> x in before))
  }

  /** The visibilities of the broker's plans are what the entries denote. */
  ghost predicate VisibleAsWanted(b: Broker, orgs: seq<string>, before: set<Pair>, wanted: set<Entry>,
                                  pairs: set<Pair>) {
    forall x :: x in pairs <==> if IsPlanOf(b, x.0) then DenotedBy(b, orgs, wanted, x) else x in before
  }

  /** Access to the plan in the org follows from the end of its flag and of its visibility. */
  ghost predicate AccessFollows(b: Broker, orgs: seq<string>, before: set<Pair>, m: map<string, bool>,
                                wanted: seq<Entry>, pairs: set<Pair>, public: map<string, bool>,
                                s: Service, p: Plan, o: string)
  {
    CanUse(orgs, public, pairs, p.guid, o) <==>
    o in orgs && (EndsPublic(b, m, wanted, s, p) || EndsVisible(b, orgs, before, Entries(wanted), s, p, o))
  }

  /** And so is the access of every org to every plan, with the flags m there were before. */
  ghost predicate AccessAsTold(b: Broker, orgs: seq<string>, before: set<Pair>, m: map<string, bool>,
                               wanted: seq<Entry>, pairs: set<Pair>, public: map<string, bool>)
  {
    forall s, p, o :: Owns(b, s, p) ==> AccessFollows(b, orgs, before, m, wanted, pairs, public, s, p, o)
  }

  ghost predicate AccessDenoted(b: Broker, orgs: seq<string>, wanted: set<Entry>, pairs: set<Pair>,
                                public: map<string, bool>, p: Plan, o: string)
  {
    CanUse(orgs, public, pairs, p.guid, o) <==> o in orgs && DenotedBy(b, orgs, wanted, (p.guid, o))
  }

  /** The orgs can use exactly what the entries denote. */
  ghost predicate AccessAsWanted(b: Broker, orgs: seq<string>, wanted: set<Entry>,
                                 pairs: set<Pair>, public: map<string, bool>)
  {
    forall s, p, o :: Owns(b, s, p) ==> AccessDenoted(b, orgs, wanted, pairs, public, p, o)
  }

  /** Expands the wanted entries, reads the current ones back and expands those too.  The error of the
      last step is ignored: if that request is lost, nothing counts as retrieved. */
  method ReadDifference(client: Marketplace, b: Broker, wanted: seq<Entry>)
    returns (err: Option<string>, source: seq<Entry>, dest: seq<Entry>, ghost retrieved: set<Entry>)
    requires client.Valid() && WellFormed(b)
    modifies client`faults, client`sent
    ensures AllFull(source) && AllFull(dest)
    ensures err.Some? ==> client.faults == old(client.faults) + 1 || !AllKnown(b, wanted)
    ensures client.faults == old(client.faults) || client.faults == old(client.faults) + 1
    ensures err.None? ==> AreExpansions(b, client.orgs, Entries(wanted), Entries(dest))
    ensures err.None? && client.faults == old(client.faults) ==>
              Updating(b, client.orgs, client.Pairs(), retrieved, Entries(wanted), Entries(source), Entries(dest))
    ensures err.None? && client.faults != old(client.faults) ==> Entries(source) == {}
    ensures err.None? ==> AllGrantable(b, client.orgs, source)
                          && (AllGrantable(b, client.orgs, dest)
                              || exists e :: e in wanted && !UpdateResolves(b, client.orgs, e))
    ensures err.Some? ==>
              client.sent <= old(client.sent) + ExpandRequests(wanted)
                             + ServicesRequests(b.services, client.orgs, client.Pairs())
  {
    source, dest, retrieved := [], [], {};
    var wantedFull := GetFullServicesAccessDef(client, b, wanted);
    if wantedFull.Failure? {
      err := Some(wantedFull.error);
      return;
    }
    err, source, retrieved := ReadSource(client, b);
    if err.Some? {
      return;
    }
    dest := wantedFull.value;
    ExpansionsHold(b, client.orgs, wanted);
    ExpansionsFull(b, client.orgs, wanted, dest);
    ResolvedGrantable(b, client.orgs, wanted, dest);
  }

  /** The current entries, read back and expanded.  An error is of a request of the reading back. */
  method ReadSource(client: Marketplace, b: Broker)
    returns (err: Option<string>, source: seq<Entry>, ghost retrieved: set<Entry>)
    requires client.Valid() && WellFormed(b)
    modifies client`faults, client`sent
    ensures client.faults == old(client.faults) || client.faults == old(client.faults) + 1
    ensures err.Some? ==> client.faults == old(client.faults) + 1
    ensures AllFull(source)
    ensures err.None? ==> AllGrantable(b, client.orgs, source)
    ensures err.None? ==> AreRetrieved(b, client.orgs, client.Pairs(), retrieved)
    ensures err.None? ==> if client.faults == old(client.faults)
                          then AreExpansions(b, client.orgs, retrieved, Entries(source))
                          else source == []
    ensures var reading := ServicesRequests(b.services, client.orgs, client.Pairs());
            if err.Some? then client.sent <= old(client.sent) + reading else client.sent >= old(client.sent) + reading
  {
    ghost var pairs := client.Pairs();
    var found, lost, _ := RetrieveServicesAccess(client, b);
    err := lost;
    assert client.Pairs() == pairs;
    source, retrieved := [], Entries(found);
    if err.None? {
      source := ExpandRetrieved(client, b, found);
      assert client.Pairs() == pairs;
    }
  }

  /** The expansion of what was retrieved, or nothing if a request is lost. */
  method ExpandRetrieved(client: Marketplace, b: Broker, found: seq<Entry>) returns (source: seq<Entry>)
    requires WellFormed(b) && OrgsWellFormed(client.orgs) && OrgsKnown(client.orgs, client.Pairs())
    requires AreRetrieved(b, client.orgs, client.Pairs(), Entries(found))
    modifies client`faults, client`sent
    ensures client.faults == old(client.faults) || client.faults == old(client.faults) + 1
    ensures AllFull(source) && AllGrantable(b, client.orgs, source)
    ensures if client.faults == old(client.faults)
            then AreExpansions(b, client.orgs, Entries(found), Entries(source))
            else source == []
    ensures client.sent >= old(client.sent)
  {
    RetrievedResolve(b, client.orgs, client.Pairs(), found);
    var expanded := GetFullServicesAccessDef(client, b, found);
    if expanded.Failure? {
      return [];
    }
    source := expanded.value;
    ExpansionsHold(b, client.orgs, found);
    ExpansionsFull(b, client.orgs, found, source);
    ResolvedGrantable(b, client.orgs, found, source);
  }

  /** dst expands the wanted entries, and src the ones read back, unless it is empty. */
  ghost predicate IsDifference(b: Broker, orgs: seq<string>, before: set<Pair>, wanted: set<Entry>,
                               retrieved: set<Entry>, src: set<Entry>, dst: set<Entry>)
  {
    && AreExpansions(b, orgs, wanted, dst)
    && (src == {} || (AreRetrieved(b, orgs, before, retrieved) && AreExpansions(b, orgs, retrieved, src)))
  }

  /** The visibilities, once the flags are set.  On success they are those of EndsVisible; on an error
      only wanted entries not retrieved have been granted and only retrieved entries not wanted revoked,
      none of these before all of those are granted. */
  method UpdateVisibilities(client: Marketplace, b: Broker, wanted: seq<Entry>)
    returns (err: Option<string>, ghost retrieved: set<Entry>, ghost src: set<Entry>, ghost dst: set<Entry>)
    requires client.Valid() && WellFormed(b)
    modifies client`rows, client`next, client`faults, client`sent
    ensures client.Valid() && client.faults >= old(client.faults)
    ensures Between(b, client.orgs, old(client.Pairs()), src, dst, client.Pairs())
    ensures CreatedFirst(b, client.orgs, old(client.Pairs()), src, dst, client.Pairs())
    ensures err.Some? && client.faults == old(client.faults) ==>
              exists e :: e in wanted && !UpdateResolves(b, client.orgs, e)
    ensures err.None? ==> AreExpansions(b, client.orgs, Entries(wanted), dst)
    ensures err.None? ==> forall x :: x in client.Pairs() <==> After(b, client.orgs, old(client.Pairs()), src, dst, x)
    ensures err.None? && client.faults == old(client.faults) ==>
              Updating(b, client.orgs, old(client.Pairs()), retrieved, Entries(wanted), src, dst)
    ensures err.None? && client.faults == old(client.faults) ==>
              EndsAsTold(b, client.orgs, old(client.Pairs()), Entries(wanted), client.Pairs())
    ensures err.None? && client.faults != old(client.faults) ==> src == {} && client.faults == old(client.faults) + 1
    ensures client.rows == old(client.rows)
            || IsDifference(b, client.orgs, old(client.Pairs()), Entries(wanted), retrieved, src, dst)
    ensures err.None? && client.faults == old(client.faults) && Recoverable(b, client.orgs, old(client.Pairs()))
            && (forall e :: e in wanted ==> WellNamed(b, e) && e.IsOneSided()) ==>
              VisibleAsWanted(b, client.orgs, old(client.Pairs()), Entries(wanted), client.Pairs())
  {
    src, dst := {}, {};
    ghost var before := client.Pairs();
    var source, dest;
    err, source, dest, retrieved := ReadDifference(client, b, wanted);
    if err.Some? {
      if !AllKnown(b, wanted) {
        UnknownUnresolved(b, client.orgs, wanted);
      }
      return;
    }
    src, dst := Entries(source), Entries(dest);
    err := ApplyDifference(client, b, source, dest);
    if err.None? && client.faults == old(client.faults) {
      Settled(b, client.orgs, before, retrieved, Entries(wanted), src, dst, client.Pairs());
    }
  }

  ghost predicate AllMayGetAccess(b: Broker, orgs: seq<string>, m: map<string, bool>, pairs: set<Pair>,
                                  wanted: seq<Entry>)
  {
    forall s, p, o :: Owns(b, s, p) && o in orgs ==> MayGetAccess(b, orgs, m, pairs, wanted, s, p, o)
  }

  /** Lines 627 to 681 of Update, for a broker snapshot b.  On success, from any state and for any wanted
      list: the public flags are those of the last entry for each service, the visibilities those of
      EndsVisible, and access follows from both.  With plainly wanted entries the access is what they
      denote if and only if the start allows it, as a recoverable state whose flags the snapshot shows
      always does.
      The error of expanding the retrieved entries is ignored: if that request is lost, nothing counts
      as retrieved and nothing is deleted.
      On an error, too, only wanted entries not retrieved have been granted and only retrieved entries
      not wanted revoked, none of these before all of those are granted, and the flags are those of the
      first k entries and part of entry k; no visibility changes before all flags are set. */
  method UpdateAccess(client: Marketplace, b: Broker, wanted: seq<Entry>)
    returns (err: Option<string>, ghost retrieved: set<Entry>, ghost src: set<Entry>, ghost dst: set<Entry>,
             ghost k: nat, ghost flagged: nat)
    requires client.Valid() && WellFormed(b)
    modifies client`rows, client`next, client`public, client`faults, client`sent
    ensures client.Valid()
    ensures client.faults >= old(client.faults)
    ensures Between(b, client.orgs, old(client.Pairs()), src, dst, client.Pairs())
    ensures CreatedFirst(b, client.orgs, old(client.Pairs()), src, dst, client.Pairs())
    ensures err.Some? && client.faults == old(client.faults) ==>
              exists e :: e in wanted && !UpdateResolves(b, client.orgs, e)
    ensures k <= |wanted| && client.public == PublicUpTo(b, old(client.public), wanted, k, flagged)
    ensures k < |wanted| ==> err.Some? && client.rows == old(client.rows)
    ensures err.None? ==> client.public == PublicAfter(b, old(client.public), wanted)
    ensures err.None? ==> AreExpansions(b, client.orgs, Entries(wanted), dst)
    ensures err.None? ==> forall x :: x in client.Pairs() <==> After(b, client.orgs, old(client.Pairs()), src, dst, x)
    ensures err.None? && client.faults == old(client.faults) ==>
              Updating(b, client.orgs, old(client.Pairs()), retrieved, Entries(wanted), src, dst)
    ensures err.None? && client.faults == old(client.faults) ==>
              EndsAsTold(b, client.orgs, old(client.Pairs()), Entries(wanted), client.Pairs())
    ensures err.None? && client.faults == old(client.faults) ==>
              AccessAsTold(b, client.orgs, old(client.Pairs()), old(client.public), wanted, client.Pairs(),
                           client.public)
    ensures err.None? && client.faults != old(client.faults) ==> src == {} && client.faults == old(client.faults) + 1
    ensures client.rows == old(client.rows)
            || IsDifference(b, client.orgs, old(client.Pairs()), Entries(wanted), retrieved, src, dst)
    ensures err.None? && client.faults == old(client.faults) && Recoverable(b, client.orgs, old(client.Pairs()))
            && (forall e :: e in wanted ==> WellNamed(b, e) && e.IsOneSided()) ==>
              VisibleAsWanted(b, client.orgs, old(client.Pairs()), Entries(wanted), client.Pairs())
    ensures err.None? && client.faults == old(client.faults) && Recoverable(b, client.orgs, old(client.Pairs()))
            && FlagsMatch(b, old(client.public)) && PlainlyWanted(b, Entries(wanted)) ==>
              AccessAsWanted(b, client.orgs, Entries(wanted), client.Pairs(), client.public)
    ensures err.None? && client.faults == old(client.faults) && PlainlyWanted(b, Entries(wanted)) ==>
              (AccessAsWanted(b, client.orgs, Entries(wanted), client.Pairs(), client.public)
               <==> AllMayGetAccess(b, client.orgs, old(client.public), old(client.Pairs()), wanted))
  {
    retrieved, src, dst := {}, {}, {};
    ghost var orgs, before, public := client.orgs, client.Pairs(), client.public;
    err, k, flagged := UpdateServicesAccessToPublicServicePlan(client, b, wanted);
    if err.Some? {
      if !AllKnown(b, wanted) {
        UnknownUnresolved(b, orgs, wanted);
      }
      return;
    }
    err, retrieved, src, dst := UpdateVisibilities(client, b, wanted);
    if err.None? && client.faults == old(client.faults) {
      AccessSettled(b, orgs, before, public, wanted, client.Pairs());
      if PlainlyWanted(b, Entries(wanted)) {
        AccessReachedIff(b, orgs, before, public, wanted, client.Pairs(), client.public);
        if Recoverable(b, orgs, before) && FlagsMatch(b, public) {
          AccessReached(b, orgs, before, public, wanted, client.Pairs(), client.public);
        }
      }
    }
  }

  lemma UnknownUnresolved(b: Broker, orgs: seq<string>, es: seq<Entry>)
    requires !AllKnown(b, es)
    ensures exists e :: e in es && !UpdateResolves(b, orgs, e)
  {
    var e :| e in es && !Known(b, e);
    assert !UpdateResolves(b, orgs, e);
  }

  lemma Settled(b: Broker, orgs: seq<string>, before: set<Pair>, retrieved: set<Entry>, wanted: set<Entry>,
                src: set<Entry>, dst: set<Entry>, pairs: set<Pair>)
    requires Updating(b, orgs, before, retrieved, wanted, src, dst)
    requires forall x :: x in pairs <==> After(b, orgs, before, src, dst, x)
    ensures EndsAsTold(b, orgs, before, wanted, pairs)
    ensures Recoverable(b, orgs, before) && (forall e :: e in wanted ==> WellNamed(b, e) && e.IsOneSided()) ==>
              VisibleAsWanted(b, orgs, before, wanted, pairs)
  {
    forall s, p, o | Owns(b, s, p)
      ensures (p.guid, o) in pairs <==> EndsVisible(b, orgs, before, wanted, s, p, o)
    {
      UpdateEndsWith(b, orgs, before, retrieved, wanted, src, dst, s, p, o);
    }
    forall x: Pair | !IsPlanOf(b, x.0)
      ensures x in pairs <==> x in before
    {
      DenotesNoOther(b, orgs, dst - src, x);
      DenotesNoOther(b, orgs, src - dst, x);
    }
    if Recoverable(b, orgs, before) && forall e :: e in wanted ==> WellNamed(b, e) && e.IsOneSided() {
      forall x
        ensures x in pairs <==> if IsPlanOf(b, x.0) then DenotedBy(b, orgs, wanted, x) else x in before
      {
        UpdateReachesWanted(b, orgs, before, retrieved, wanted, src, dst, x);
      }
    }
  }

  lemma AccessSettled(b: Broker, orgs: seq<string>, before: set<Pair>, m: map<string, bool>, wanted: seq<Entry>,
                      pairs: set<Pair>)
    requires WellFormed(b) && EndsAsTold(b, orgs, before, Entries(wanted), pairs)
    ensures AccessAsTold(b, orgs, before, m, wanted, pairs, PublicAfter(b, m, wanted))
  {
    forall s, p, o | Owns(b, s, p)
      ensures AccessFollows(b, orgs, before, m, wanted, pairs, PublicAfter(b, m, wanted), s, p, o)
    {
      EndsPublicIff(b, m, wanted, s, p);
    }
  }

  lemma AccessReached(b: Broker, orgs: seq<string>, before: set<Pair>, m: map<string, bool>, wanted: seq<Entry>,
                      pairs: set<Pair>, public: map<string, bool>)
    requires WellFormed(b) && OrgsWellFormed(orgs) && OrgsKnown(orgs, before)
    requires AccessAsTold(b, orgs, before, m, wanted, pairs, public)
    requires Recoverable(b, orgs, before) && FlagsMatch(b, m) && PlainlyWanted(b, Entries(wanted))
    ensures AccessAsWanted(b, orgs, Entries(wanted), pairs, public)
  {
    forall s, p, o | Owns(b, s, p)
      ensures AccessDenoted(b, orgs, Entries(wanted), pairs, public, p, o)
    {
      assert AccessFollows(b, orgs, before, m, wanted, pairs, public, s, p, o);
      AccessIsWanted(b, orgs, m, before, wanted, s, p, o);
    }
  }

  lemma AccessReachedIff(b: Broker, orgs: seq<string>, before: set<Pair>, m: map<string, bool>, wanted: seq<Entry>,
                         pairs: set<Pair>, public: map<string, bool>)
    requires WellFormed(b) && OrgsWellFormed(orgs) && OrgsKnown(orgs, before)
    requires AccessAsTold(b, orgs, before, m, wanted, pairs, public) && PlainlyWanted(b, Entries(wanted))
    ensures AccessAsWanted(b, orgs, Entries(wanted), pairs, public) <==> AllMayGetAccess(b, orgs, m, before, wanted)
  {
    forall s, p, o | Owns(b, s, p)
      ensures AccessDenoted(b, orgs, Entries(wanted), pairs, public, p, o) <==>
              (o in orgs ==> MayGetAccess(b, orgs, m, before, wanted, s, p, o))
    {
      assert AccessFollows(b, orgs, before, m, wanted, pairs, public, s, p, o);
      if o in orgs {
        AccessIsWantedIff(b, orgs, m, before, wanted, s, p, o);
      }
    }
  }
}
