/** The Cloud Controller as a service broker resource sees it: orgs, plan visibilities and the public
    flags of plans, changed request by request.  Any request may be lost; `faults` counts those that
    were, so that a method can say exactly when it reports an error, and `sent` counts all. */
module CloudMarket {
  import opened Wrappers
  import opened ServiceAccess
  import opened AccessTheory

  datatype Visibility = Visibility(guid: nat, plan: string, org: string)

  function PairsOf(rows: seq<Visibility>): set<Pair> { set v | v in rows :: (v.plan, v.org) }

  /** The rows a search by plan, or by plan and org, returns. */
  function Matching(rows: seq<Visibility>, plan: string, org: Option<string>): (found: seq<Visibility>)
    ensures forall v :: v in found <==> v in rows && v.plan == plan && (org.Some? ==> v.org == org.value)
  {
    if rows == [] then []
    else
      var v, rest := rows[0], Matching(rows[1..], plan, org);
      if v.plan == plan && (org.Some? ==> v.org == org.value) then [v] + rest else rest
  }

  /** No two rows are about the same plan and org. */
  ghost predicate DistinctPairs(rows: seq<Visibility>) {
    forall i, j :: 0 <= i < j < |rows| ==> rows[i].plan != rows[j].plan || rows[i].org != rows[j].org
  }

  ghost predicate RowsValid(rows: seq<Visibility>, next: nat) {
    && (forall v :: v in rows ==> v.guid < next)
    && (forall i, j :: 0 <= i < j < |rows| ==> rows[i].guid != rows[j].guid)
    && DistinctPairs(rows)
  }

  datatype CreateOutcome = Created | Taken | Rejected

  class Marketplace {
    const orgs: seq<string>
    var rows: seq<Visibility>
    var public: map<string, bool>
    var next: nat
    var faults: nat
    var sent: nat

    constructor (orgs: seq<string>)
      requires OrgsWellFormed(orgs)
      ensures Valid() && this.orgs == orgs && Pairs() == {} && public == map[] && faults == 0 && sent == 0
    {
      this.orgs := orgs;
      rows, public, next, faults, sent := [], map[], 0, 0, 0;
    }

    ghost function Pairs(): set<Pair>
      reads this`rows
    {
      PairsOf(rows)
    }

    ghost predicate Valid()
      reads this`rows, this`next
    {
      OrgsWellFormed(orgs) && RowsValid(rows, next) && OrgsKnown(orgs, Pairs())
    }

    /** Is the next request, which is being sent, lost? */
    method Lose() returns (lost: bool)
      modifies this`faults, this`sent
      ensures faults == if lost then old(faults) + 1 else old(faults)
      ensures sent == old(sent) + 1
    {
      lost, sent := false, sent + 1;
      if * {
        lost := true;
        faults := faults + 1;
      }
    }

    method ListOrgs() returns (r: Result<seq<string>>)
      modifies this`faults, this`sent
      ensures r.Success? ==> r.value == orgs
      ensures faults == if r.Success? then old(faults) else old(faults) + 1
      ensures sent == old(sent) + 1
    {
      var lost := Lose();
      r := if lost then Failure("organizations") else Success(orgs);
    }

    method Search(plan: string, org: Option<string>) returns (r: Result<seq<Visibility>>)
      modifies this`faults, this`sent
      ensures r.Success? ==> r.value == Matching(rows, plan, org)
      ensures faults == if r.Success? then old(faults) else old(faults) + 1
      ensures sent == old(sent) + 1
    {
      var lost := Lose();
      r := if lost then Failure("service plan visibilities") else Success(Matching(rows, plan, org));
    }

    /** Makes a plan visible to an org.  The pair must be new and the org must exist. */
    method CreateVisibility(plan: string, org: string) returns (outcome: CreateOutcome)
      requires Valid()
      modifies this`rows, this`next, this`faults, this`sent
      ensures Valid() && faults >= old(faults)
      ensures outcome.Created? ==> Pairs() == old(Pairs()) + {(plan, org)} && org in orgs && faults == old(faults)
      ensures outcome.Taken? ==> (plan, org) in Pairs() && Pairs() == old(Pairs()) && faults == old(faults)
      ensures outcome.Rejected? ==> Pairs() == old(Pairs()) && (org !in orgs || faults == old(faults) + 1)
    {
      var lost := Lose();
      if lost || org !in orgs {
        return Rejected;
      }
      for i := 0 to |rows|
        invariant forall j :: 0 <= j < i ==> rows[j].plan != plan || rows[j].org != org
      {
        if rows[i].plan == plan && rows[i].org == org {
          assert rows[i] in rows;
          return Taken;
        }
      }
      AppendRow(rows, Visibility(next, plan, org), next);
      rows, next := rows + [Visibility(next, plan, org)], next + 1;
      return Created;
    }

    method DeleteVisibility(guid: nat) returns (ok: bool)
      requires Valid() && exists v :: v in rows && v.guid == guid
      modifies this`rows, this`faults, this`sent
      ensures Valid()
      ensures faults == if ok then old(faults) else old(faults) + 1
      ensures !ok ==> rows == old(rows)
      ensures ok ==> forall v :: v in old(rows) && v.guid == guid ==> Pairs() == old(Pairs()) - {(v.plan, v.org)}
    {
      var lost := Lose();
      if lost {
        return false;
      }
      var i := 0;
      while rows[i].guid != guid
        invariant i < |rows|
        invariant exists j :: i <= j < |rows| && rows[j].guid == guid
        decreases |rows| - i
      {
        i := i + 1;
      }
      ghost var was := rows;
      rows := rows[..i] + rows[i + 1..];
      RemoveRow(was, i, rows, next);
      return true;
    }

    method SetPublic(plan: Plan, isPublic: bool) returns (ok: bool)
      modifies this`public, this`faults, this`sent
      ensures public == if ok then old(public)[plan.guid := isPublic] else old(public)
      ensures faults == if ok then old(faults) else old(faults) + 1
    {
      var lost := Lose();
      if !lost {
        public := public[plan.guid := isPublic];
      }
      ok := !lost;
    }
  }

  lemma AppendRow(rows: seq<Visibility>, v: Visibility, next: nat)
    requires RowsValid(rows, next) && v.guid == next
    requires forall j :: 0 <= j < |rows| ==> rows[j].plan != v.plan || rows[j].org != v.org
    ensures RowsValid(rows + [v], next + 1)
    ensures PairsOf(rows + [v]) == PairsOf(rows) + {(v.plan, v.org)}
  {
  }

  lemma RemoveRow(was: seq<Visibility>, i: nat, rows: seq<Visibility>, next: nat)
    requires i < |was| && rows == was[..i] + was[i + 1..] && RowsValid(was, next)
    ensures RowsValid(rows, next)
    ensures PairsOf(rows) == PairsOf(was) - {(was[i].plan, was[i].org)}
    ensures forall v :: v in was && v.guid == was[i].guid ==> v == was[i]
  {
  }
}
