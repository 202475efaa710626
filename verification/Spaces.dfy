/** Security groups of a space: resources/spaces.go and resources/utils.go. */
module Spaces {
  import opened Wrappers

  function Elems(xs: seq<string>): set<string> { set x | x in xs }

  lemma ElemsNext(xs: seq<string>, i: nat)
    requires i < |xs|
    ensures Elems(xs[..i + 1]) == Elems(xs[..i]) + {xs[i]}
    ensures Elems(xs[..i]) <= Elems(xs)
  {
    assert xs[..i + 1] == xs[..i] + [xs[i]];
  }

  // ----- resources/utils.go -----

  /** The elements of source that are not in other, in order. */
  function MissingFrom(source: seq<string>, other: seq<string>): (missing: seq<string>)
    ensures forall x :: x in missing <==> x in source && x !in other
  {
    if source == [] then []
    else
      var init, last := source[..|source| - 1], source[|source| - 1];
      assert source == init + [last];
      MissingFrom(init, other) + (if last in other then [] else [last])
  }

  /** containsSecGroup */
  method ContainsSecGroup(s: seq<string>, e: string) returns (found: bool)
    ensures found <==> e in s
  {
    for i := 0 to |s|
      invariant e !in s[..i]
    {
      if s[i] == e {
        return true;
      }
    }
    return false;
  }

  /** GetMissingSecGroup */
  method GetMissingSecGroup(source: seq<string>, inspected: seq<string>) returns (missing: seq<string>)
    ensures missing == MissingFrom(source, inspected)
  {
    missing := [];
    for i := 0 to |source|
      invariant missing == MissingFrom(source[..i], inspected)
    {
      assert source[..i + 1][..i] == source[..i];
      var found := ContainsSecGroup(inspected, source[i]);
      if !found {
        missing := missing + [source[i]];
      }
    }
    assert source[..|source|] == source;
  }

  // ----- resources/spaces.go -----

  /** A space on the Cloud Controller.  Requests may be lost; faults counts those that were. */
  class Space {
    var bound: set<string>
    var faults: nat

    constructor (bound: set<string>)
      ensures this.bound == bound && faults == 0
    {
      this.bound, faults := bound, 0;
    }

    method Lose() returns (lost: bool)
      modifies this`faults
      ensures faults == if lost then old(faults) + 1 else old(faults)
    {
      lost := false;
      if * {
        lost := true;
        faults := faults + 1;
      }
    }

    method BindSpace(group: string) returns (ok: bool)
      modifies this
      ensures faults == if ok then old(faults) else old(faults) + 1
      ensures bound == if ok then old(bound) + {group} else old(bound)
    {
      var lost := Lose();
      if !lost {
        bound := bound + {group};
      }
      return !lost;
    }

    method UnbindSpace(group: string) returns (ok: bool)
      modifies this
      ensures faults == if ok then old(faults) else old(faults) + 1
      ensures bound == if ok then old(bound) - {group} else old(bound)
    {
      var lost := Lose();
      if !lost {
        bound := bound - {group};
      }
      return !lost;
    }

    /** updateSecGroups: binds what is only in `to`, then unbinds what is only in `from`.  An error
        leaves the space somewhere on the way: nothing outside `to` is bound, only groups outside `to`
        are unbound, and none before all of `to` is bound. */
    method UpdateSecGroups(from: seq<string>, to: seq<string>) returns (err: Option<string>)
      modifies this
      ensures err.None? <==> faults == old(faults)
      ensures faults <= old(faults) + 1
      ensures err.None? ==> bound == (old(bound) + (Elems(to) - Elems(from))) - (Elems(from) - Elems(to))
      ensures old(bound) - (Elems(from) - Elems(to)) <= bound <= old(bound) + (Elems(to) - Elems(from))
      ensures old(bound) <= bound || Elems(to) - Elems(from) <= bound
    {
      var toBind := GetMissingSecGroup(to, from);
      var toUnbind := GetMissingSecGroup(from, to);
      if |toBind| == 0 && |toUnbind| == 0 {
        assert Elems(to) - Elems(from) == Elems(toBind) == {};
        assert Elems(from) - Elems(to) == Elems(toUnbind) == {};
        return None;
      }
      ghost var n;
      err, n := BindEach(toBind);
      if err.Some? {
        return;
      }
      assert Elems(toUnbind) !! Elems(toBind);
      err, n := UnbindEach(toUnbind);
    }

    /** Stops at the first lost request, after the first n groups. */
    method BindEach(groups: seq<string>) returns (err: Option<string>, ghost n: nat)
      modifies this
      ensures faults == if err.None? then old(faults) else old(faults) + 1
      ensures n <= |groups| && (err.None? <==> n == |groups|)
      ensures bound == old(bound) + Elems(groups[..n])
      ensures err.None? ==> bound == old(bound) + Elems(groups)
      ensures old(bound) <= bound <= old(bound) + Elems(groups)
    {
      for i := 0 to |groups|
        invariant faults == old(faults)
        invariant bound == old(bound) + Elems(groups[..i])
      {
        ElemsNext(groups, i);
        var ok := BindSpace(groups[i]);
        if !ok {
          return Some("bind failed"), i;
        }
      }
      assert groups[..|groups|] == groups;
      return None, |groups|;
    }

    method UnbindEach(groups: seq<string>) returns (err: Option<string>, ghost n: nat)
      modifies this
      ensures faults == if err.None? then old(faults) else old(faults) + 1
      ensures n <= |groups| && (err.None? <==> n == |groups|)
      ensures bound == old(bound) - Elems(groups[..n])
      ensures err.None? ==> bound == old(bound) - Elems(groups)
      ensures old(bound) - Elems(groups) <= bound <= old(bound)
    {
      for i := 0 to |groups|
        invariant faults == old(faults)
        invariant bound == old(bound) - Elems(groups[..i])
      {
        ElemsNext(groups, i);
        var ok := UnbindSpace(groups[i]);
        if !ok {
          return Some("unbind failed"), i;
        }
      }
      assert groups[..|groups|] == groups;
      return None, |groups|;
    }

    /** The security-group part of Update: `current` lists what is bound, `managed` what the Terraform
        state held before.  A change reaches the wanted groups and keeps the unmanaged ones; without a
        change every group that is not wanted is unbound, managed or not. */
    method UpdateManagedGroups(current: seq<string>, wanted: seq<string>, changed: bool, managed: seq<string>)
      returns (err: Option<string>)
      requires Elems(current) == bound
      modifies this
      ensures err.None? <==> faults == old(faults)
      ensures err.None? ==> bound == if changed then Elems(wanted) + (old(bound) - Elems(managed)) else Elems(wanted)
      ensures Elems(wanted) * old(bound) <= bound <= old(bound) + Elems(wanted)
      ensures changed ==> old(bound) - Elems(managed) <= bound
      ensures old(bound) <= bound || Elems(wanted) <= bound
    {
      var from := current;
      if changed {
        from := FilterByTerraformExist(current, managed);
      }
      err := UpdateSecGroups(from, wanted);
    }

    /** The security-group part of Create on a space that may already exist: `specific` are the groups
        bound to spaces rather than to all.  Nothing is unbound. */
    method CreateGroups(current: seq<string>, wanted: seq<string>, specific: set<string>) returns (err: Option<string>)
      requires Elems(current) == bound
      modifies this
      ensures err.None? <==> faults == old(faults)
      ensures err.None? ==> bound == old(bound) + Elems(wanted)
      ensures old(bound) <= bound <= old(bound) + Elems(wanted)
    {
      var filtered: seq<string> := [];
      for i := 0 to |current|
        invariant Elems(filtered) <= Elems(current)
      {
        if current[i] in specific {
          assert Elems(filtered + [current[i]]) == Elems(filtered) + {current[i]};
          filtered := filtered + [current[i]];
        }
      }
      var from := FilterByTerraformExist(filtered, wanted);
      assert Elems(from) - Elems(wanted) == {};
      err := UpdateSecGroups(from, wanted);
    }
  }

  /** filterSecGroupByTerraformExist: the groups of the first list that are in the second. */
  method FilterByTerraformExist(groups: seq<string>, known: seq<string>) returns (kept: seq<string>)
    ensures Elems(kept) == Elems(groups) * Elems(known)
  {
    kept := [];
    for i := 0 to |groups|
      invariant Elems(kept) == Elems(groups[..i]) * Elems(known)
    {
      assert Elems(groups[..i + 1]) == Elems(groups[..i]) + {groups[i]};
      var found := ContainsSecGroup(known, groups[i]);
      if found {
        assert Elems(kept + [groups[i]]) == Elems(kept) + {groups[i]};
        kept := kept + [groups[i]];
      }
    }
    assert groups[..|groups|] == groups;
  }
}
