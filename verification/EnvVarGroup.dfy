/** Environment variable groups, resources/env_var_group.go: two maps on the Cloud Controller, one set
    of flagged variables in the Terraform schema.  Go iterates over a map in any order; the loops
    here pick any remaining key, so what is proved holds for every order. */
module EnvVarGroup {
  datatype EnvVar = EnvVar(key: string, value: string, running: bool, staging: bool)

  datatype Groups = Groups(running: map<string, string>, staging: map<string, string>)

  function Elems(list: seq<EnvVar>): set<EnvVar> { set v | v in list }

  // ----- Merging -----

  /** The one variable that stands for key k. */
  function MergedVar(g: Groups, k: string): EnvVar
    requires k in g.running || k in g.staging
  {
    if k in g.running then EnvVar(k, g.running[k], true, k in g.staging)
    else EnvVar(k, g.staging[k], false, true)
  }

  function Merged(g: Groups): set<EnvVar> {
    set k | k in g.running.Keys + g.staging.Keys :: MergedVar(g, k)
  }

  /** EnvVarGroupMap.ToSchema */
  method ToSchema(g: Groups) returns (vars: set<EnvVar>)
    ensures vars == Merged(g)
  {
    var byKey: map<string, EnvVar> := map[];
    var keys := g.running.Keys;
    while keys != {}
      invariant keys <= g.running.Keys
      invariant byKey.Keys == g.running.Keys - keys
      invariant forall k :: k in byKey ==> byKey[k] == EnvVar(k, g.running[k], true, false)
    {
      var key :| key in keys;
      keys := keys - {key};
      byKey := byKey[key := EnvVar(key, g.running[key], true, false)];
    }
    keys := g.staging.Keys;
    while keys != {}
      invariant keys <= g.staging.Keys
      invariant byKey.Keys == g.running.Keys + (g.staging.Keys - keys)
      invariant forall k :: k in byKey ==>
                  byKey[k] == if k in keys then EnvVar(k, g.running[k], true, false) else MergedVar(g, k)
    {
      var key :| key in keys;
      keys := keys - {key};
      if key in byKey {
        byKey := byKey[key := byKey[key].(staging := true)];
        continue;
      }
      byKey := byKey[key := EnvVar(key, g.staging[key], false, true)];
    }
    vars := {};
    keys := byKey.Keys;
    while keys != {}
      invariant keys <= byKey.Keys
      invariant vars == set k | k in byKey.Keys - keys :: byKey[k]
    {
      var key :| key in keys;
      ghost var done := byKey.Keys - keys;
      keys := keys - {key};
      assert byKey.Keys - keys == done + {key};
      vars := vars + {byKey[key]};
    }
    assert byKey.Keys - keys == byKey.Keys;
  }

  // ----- Splitting -----

  /** Later variables override earlier ones with the same key and flag. */
  function Split(list: seq<EnvVar>): Groups {
    if list == [] then Groups(map[], map[])
    else
      var g, v := Split(list[..|list| - 1]), list[|list| - 1];
      Groups(if v.running then g.running[v.key := v.value] else g.running,
             if v.staging then g.staging[v.key := v.value] else g.staging)
  }

  /** resourceObject */
  method ResourceObject(list: seq<EnvVar>) returns (g: Groups)
    ensures g == Split(list)
  {
    var running: map<string, string>, staging: map<string, string> := map[], map[];
    for i := 0 to |list|
      invariant Groups(running, staging) == Split(list[..i])
    {
      assert list[..i + 1][..i] == list[..i];
      if list[i].running {
        running := running[list[i].key := list[i].value];
      }
      if list[i].staging {
        staging := staging[list[i].key := list[i].value];
      }
    }
    assert list[..|list|] == list;
    return Groups(running, staging);
  }

  /** Equal keys mean the same variable. */
  ghost predicate UniqueKeys(list: seq<EnvVar>) {
    forall v, w :: v in list && w in list && v.key == w.key ==> v == w
  }

  /** Exactly the flagged variables of the list, in each map. */
  ghost predicate Holds(g: Groups, list: seq<EnvVar>) {
    && (forall v :: v in list && v.running ==> v.key in g.running && g.running[v.key] == v.value)
    && (forall v :: v in list && v.staging ==> v.key in g.staging && g.staging[v.key] == v.value)
    && (forall k :: k in g.running ==> exists v :: v in list && v.key == k && v.running)
    && (forall k :: k in g.staging ==> exists v :: v in list && v.key == k && v.staging)
  }

  lemma {:induction false} SplitHolds(list: seq<EnvVar>)
    requires UniqueKeys(list)
    ensures Holds(Split(list), list)
  {
    if list != [] {
      var init, v := list[..|list| - 1], list[|list| - 1];
      assert list == init + [v];
      SplitHolds(init);
    }
  }

  /** Splitting a list with unique keys does not depend on its order. */
  lemma SplitAnyOrder(list: seq<EnvVar>, other: seq<EnvVar>)
    requires UniqueKeys(list) && Elems(list) == Elems(other)
    ensures Split(list) == Split(other)
  {
    assert forall v :: v in list <==> v in other by {
      assert forall v :: v in list <==> v in Elems(list);
      assert forall v :: v in other <==> v in Elems(other);
    }
    SplitHolds(list);
    SplitHolds(other);
    HoldsDetermines(Split(list), Split(other), list, other);
  }

  lemma HoldsDetermines(g: Groups, h: Groups, list: seq<EnvVar>, other: seq<EnvVar>)
    requires Holds(g, list) && Holds(h, other)
    requires forall v :: v in list <==> v in other
    ensures g == h
  {
  }

  // ----- Round trips -----

  lemma ListOfMerged(g: Groups, list: seq<EnvVar>)
    requires Elems(list) == Merged(g)
    ensures UniqueKeys(list)
    ensures forall v :: v in list ==> (v.key in g.running || v.key in g.staging) && v == MergedVar(g, v.key)
    ensures forall k :: k in g.running || k in g.staging ==> MergedVar(g, k) in list
  {
    assert forall v :: v in list <==> v in Merged(g) by {
      assert forall v :: v in list <==> v in Elems(list);
    }
    forall k | k in g.running || k in g.staging
      ensures MergedVar(g, k) in list
    {
      assert MergedVar(g, k) in Merged(g);
    }
  }

  lemma SplitOfMergedAt(g: Groups, list: seq<EnvVar>, k: string)
    requires Elems(list) == Merged(g)
    ensures var h := Split(list);
            && (k in h.running <==> k in g.running) && (k in h.staging <==> k in g.staging)
            && (k in g.running ==> h.running[k] == g.running[k])
            && (k in g.staging ==> h.staging[k] == if k in g.running then g.running[k] else g.staging[k])
  {
    ListOfMerged(g, list);
    SplitHolds(list);
    if k in g.running || k in g.staging {
      assert MergedVar(g, k) in list;
    }
  }

  /** Splitting the merged set gives back Running, and Staging with Running's values on shared keys. */
  lemma SplitOfMerged(g: Groups, list: seq<EnvVar>)
    requires Elems(list) == Merged(g)
    ensures Split(list).running == g.running
    ensures Split(list).staging == map k | k in g.staging :: if k in g.running then g.running[k] else g.staging[k]
  {
    forall k {
      SplitOfMergedAt(g, list, k);
    }
    assert Split(list).running.Keys == g.running.Keys && Split(list).staging.Keys == g.staging.Keys;
  }

  /** So the round trip is the identity if and only if the two maps agree on their shared keys. */
  lemma SplitOfMergedIsIdentityIff(g: Groups, list: seq<EnvVar>)
    requires Elems(list) == Merged(g)
    ensures Split(list) == g <==> forall k :: k in g.running && k in g.staging ==> g.running[k] == g.staging[k]
  {
    SplitOfMerged(g, list);
    if forall k :: k in g.running && k in g.staging ==> g.running[k] == g.staging[k] {
      assert Split(list).staging == g.staging;
    }
  }

  /** Merging what was split gives the set back if and only if its keys are unique and every variable
      has a flag. */
  lemma MergedOfSplitIsIdentityIff(list: seq<EnvVar>)
    ensures Merged(Split(list)) == Elems(list) <==>
            UniqueKeys(list) && forall v :: v in list ==> v.running || v.staging
  {
    if UniqueKeys(list) && forall v :: v in list ==> v.running || v.staging {
      FlaggedIsMerged(list);
    }
    if Merged(Split(list)) == Elems(list) {
      assert forall v :: v in list ==> v in Merged(Split(list)) by {
        assert forall v :: v in list ==> v in Elems(list);
      }
    }
  }

  /** With unique keys and flags, the variable merged from the split for a key is the one in the list. */
  lemma FlaggedIsMerged(list: seq<EnvVar>)
    requires UniqueKeys(list) && forall v :: v in list ==> v.running || v.staging
    ensures Merged(Split(list)) == Elems(list)
  {
    var g := Split(list);
    SplitHolds(list);
    forall v | v in list
      ensures (v.key in g.running || v.key in g.staging) && MergedVar(g, v.key) == v
    {
      MergedAt(g, list, v);
    }
    forall v | v in Merged(g)
      ensures v in list
    {
      var w :| w in list && w.key == v.key;
      assert MergedVar(g, w.key) == w;
    }
    forall v | v in list
      ensures v in Merged(g)
    {
      assert MergedVar(g, v.key) == v;
    }
  }

  lemma MergedAt(g: Groups, list: seq<EnvVar>, v: EnvVar)
    requires Holds(g, list) && UniqueKeys(list) && v in list && (v.running || v.staging)
    ensures (v.key in g.running || v.key in g.staging) && MergedVar(g, v.key) == v
  {
    if v.key in g.running {
      var w :| w in list && w.key == v.key && w.running;
    }
    if v.key in g.staging {
      var w :| w in list && w.key == v.key && w.staging;
    }
  }

  // ----- Exists -----

  /** Exists compares the merged sets in one direction.  It finds nothing missing exactly when every
      wanted key has the wanted flags on the Cloud Controller and the value the merge shows agrees;
      for a key in both groups the staging values are not compared. */
  lemma NothingMissingIff(want: Groups, have: Groups)
    ensures Merged(want) - Merged(have) == {} <==>
            forall k :: k in want.running.Keys + want.staging.Keys ==>
              && (k in want.running <==> k in have.running)
              && (k in want.staging <==> k in have.staging)
              && (k in want.running ==> k in have.running && want.running[k] == have.running[k])
              && (k in want.staging && k !in want.running ==> k in have.staging && want.staging[k] == have.staging[k])
  {
    forall k | k in want.running.Keys + want.staging.Keys
      ensures MergedVar(want, k) in Merged(have) <==>
              k in have.running.Keys + have.staging.Keys && MergedVar(have, k) == MergedVar(want, k)
    {
    }
    NothingMissing(Merged(want), Merged(have));
    if Merged(want) <= Merged(have) {
      forall k | k in want.running.Keys + want.staging.Keys
        ensures MergedVar(want, k) in Merged(have)
      {
        assert MergedVar(want, k) in Merged(want);
      }
    }
  }

  lemma NothingMissing<T>(want: set<T>, have: set<T>)
    ensures want - have == {} <==> want <= have
  {
    if want - have == {} {
      forall x | x in want
        ensures x in have
      {
        assert x !in want - have;
      }
    }
  }
}
