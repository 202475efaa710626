/** The saga interpreter of rewind/rewind.go: a list of forward steps, each with an optional
    compensation, run in order until one fails.

    A step is a closure over mutable state.  Here the state it closes over is made explicit, so a
    closure is a function from a state to the state it leaves behind and its outcome. */
module Rewind {
  import opened Wrappers

  /** What a closure reports: no error, an error, or a Go panic that unwinds the interpreter. */
  datatype Status = Ok | Failed(message: string) | Panicked(message: string)

  /** A state and the outcome that came with it.  With `:-` a step stops at the first one that is not Ok. */
  datatype Effect<S> = Effect(state: S, status: Status) {
    predicate IsFailure() { !status.Ok? }

    function PropagateFailure(): Effect<S>
      requires IsFailure()
    {
      this
    }

    function Extract(): S
      requires !IsFailure()
    {
      state
    }
  }

  datatype Action<!S> = Action(forward: S -> Effect<S>, reversePrevious: Option<S -> Effect<S>>)

  /** The error of a failed compensation, with the configured prefix if there is one. */
  function RewindFailure(prefix: string, message: string): string {
    if prefix != "" then prefix + ": " + message else message
  }

  /** What happens once the forward step of `action` has returned `failed`. */
  function Compensate<S>(action: Action<S>, prefix: string, failed: Effect<S>): Effect<S>
    requires failed.status.Failed?
  {
    if action.reversePrevious.None? then
      failed
    else
      var reversed := action.reversePrevious.value(failed.state);
      match reversed.status
      case Ok => Effect(reversed.state, failed.status)
      case Failed(message) => Effect(reversed.state, Failed(RewindFailure(prefix, message)))
      case Panicked(_) => reversed
  }

  /** The meaning of Actions.Execute. */
  function Run<S>(actions: seq<Action<S>>, prefix: string, s: S): Effect<S> {
    if actions == [] then
      Effect(s, Ok)
    else
      var step := actions[0].forward(s);
      match step.status
      case Ok => Run(actions[1..], prefix, step.state)
      case Failed(_) => Compensate(actions[0], prefix, step)
      case Panicked(_) => step
  }

  // ----- Which closures run, for any list of actions -----

  datatype Event = RanForward(index: nat) | RanReverse(index: nat)

  /** The forward steps from number `from` up to, not including, number `end`. */
  function Forwards(from: nat, end: nat): (events: seq<Event>)
    requires from <= end
    ensures |events| == end - from
    ensures forall i :: 0 <= i < |events| ==> events[i] == RanForward(from + i)
    decreases end - from
  {
    if from == end then [] else [RanForward(from)] + Forwards(from + 1, end)
  }

  /** The state before forward step k, provided all earlier forward steps return no error. */
  function Before<S>(actions: seq<Action<S>>, k: nat, s: S): S
    requires k <= |actions|
  {
    if k == 0 then s else Before(actions[1..], k - 1, actions[0].forward(s).state)
  }

  ghost predicate AllOk<S>(actions: seq<Action<S>>, k: nat, s: S)
    requires k <= |actions|
  {
    forall i :: 0 <= i < k ==> actions[i].forward(Before(actions, i, s)).status.Ok?
  }

  /** The interpreter stopped at step k: all earlier steps succeeded, and either k is past the end
      or step k did not succeed. */
  ghost predicate StopsAt<S>(actions: seq<Action<S>>, s: S, k: nat) {
    && k <= |actions|
    && AllOk(actions, k, s)
    && (k < |actions| ==> !actions[k].forward(Before(actions, k, s)).status.Ok?)
  }

  /** The outcome and the sequence of closure calls of a run that stops at step k. */
  ghost predicate Explains<S>(actions: seq<Action<S>>, prefix: string, s: S, k: nat,
                              out: Effect<S>, trace: seq<Event>)
    requires k <= |actions|
  {
    var before := Before(actions, k, s);
    if k == |actions| then
      out == Effect(before, Ok) && trace == Forwards(0, k)
    else
      var step := actions[k].forward(before);
      if !step.status.Failed? || actions[k].reversePrevious.None? then
        out == step && trace == Forwards(0, k + 1)
      else
        var reversed := actions[k].reversePrevious.value(step.state);
        && trace == Forwards(0, k + 1) + [RanReverse(k)]
        && out.state == reversed.state
        && (reversed.status.Ok? ==> out.status == step.status)
        && (reversed.status.Failed? && prefix == "" ==> out.status == reversed.status)
        && (reversed.status.Failed? && prefix != "" ==> out.status == Failed(prefix + ": " + reversed.status.message))
        && (reversed.status.Panicked? ==> out.status == reversed.status)
  }

  /** A state together with the closure calls made so far. */
  datatype Recorded<+S> = Recorded(state: S, events: seq<Event>)

  /** The same actions, each also recording its call. */
  function Traced<S>(actions: seq<Action<S>>, from: nat): (traced: seq<Action<Recorded<S>>>)
    ensures |traced| == |actions|
  {
    if actions == [] then
      []
    else
      [Action(Recording(actions[0].forward, RanForward(from)),
              if actions[0].reversePrevious.None? then None
              else Some(Recording(actions[0].reversePrevious.value, RanReverse(from))))]
      + Traced(actions[1..], from + 1)
  }

  function Recording<S>(f: S -> Effect<S>, event: Event): Recorded<S> -> Effect<Recorded<S>> {
    (r: Recorded<S>) => var e := f(r.state); Effect(Recorded(e.state, r.events + [event]), e.status)
  }

  /** For every list of actions and every start state: the forward steps that run are a prefix of
      the list, at most one compensation runs, it belongs to the failing step and nothing runs after
      it, and the error is the step's own unless its compensation failed. */
  lemma RunTrace<S>(actions: seq<Action<S>>, prefix: string, s: S)
    returns (k: nat, trace: seq<Event>)
    ensures StopsAt(actions, s, k)
    ensures Explains(actions, prefix, s, k, Run(actions, prefix, s), trace)
    ensures Run(Traced(actions, 0), prefix, Recorded(s, [])).state == Recorded(Run(actions, prefix, s).state, trace)
    ensures Run(Traced(actions, 0), prefix, Recorded(s, [])).status == Run(actions, prefix, s).status
  {
    k := StopIndex(actions, s);
    RunStops(actions, prefix, s, k);
    CallsAtStop(actions, 0, s, k);
    TracedRun(actions, prefix, s, 0, []);
    trace := CallsUpTo(actions, 0, s, k);
    assert [] + trace == trace;
  }

  /** No error is returned if and only if every forward step succeeds. */
  lemma RunOkIffAllOk<S>(actions: seq<Action<S>>, prefix: string, s: S)
    ensures Run(actions, prefix, s).status.Ok? <==> AllOk(actions, |actions|, s)
  {
    var k := StopIndex(actions, s);
    RunStops(actions, prefix, s, k);
  }

  lemma {:induction false} StopIndex<S>(actions: seq<Action<S>>, s: S) returns (k: nat)
    ensures StopsAt(actions, s, k)
  {
    if actions == [] || !actions[0].forward(s).status.Ok? {
      k := 0;
    } else {
      var rest := StopIndex(actions[1..], actions[0].forward(s).state);
      k := rest + 1;
      forall i | 0 <= i < k
        ensures actions[i].forward(Before(actions, i, s)).status.Ok?
      {
        if i > 0 {
          assert actions[i] == actions[1..][i - 1];
        }
      }
      if k < |actions| {
        assert actions[k] == actions[1..][k - 1];
      }
    }
  }

  lemma StopsAtTail<S>(actions: seq<Action<S>>, s: S, k: nat)
    requires StopsAt(actions, s, k) && k > 0
    ensures actions[0].forward(s).status.Ok?
    ensures StopsAt(actions[1..], actions[0].forward(s).state, k - 1)
  {
  }

  /** A run that stops at k is the k-th step, compensated if it failed. */
  lemma {:induction false} RunStops<S>(actions: seq<Action<S>>, prefix: string, s: S, k: nat)
    requires StopsAt(actions, s, k)
    ensures k == |actions| ==> Run(actions, prefix, s) == Effect(Before(actions, k, s), Ok)
    ensures k < |actions| ==>
              var step := actions[k].forward(Before(actions, k, s));
              Run(actions, prefix, s) == if step.status.Failed? then Compensate(actions[k], prefix, step) else step
    ensures Run(actions, prefix, s).status.Ok? <==> k == |actions|
  {
    if k > 0 {
      StopsAtTail(actions, s, k);
      var s1, rest := actions[0].forward(s).state, actions[1..];
      RunStops(rest, prefix, s1, k - 1);
    }
  }

  /** The closure calls a run makes, numbered from `from`. */
  function CallsOf<S>(actions: seq<Action<S>>, from: nat, s: S): seq<Event> {
    if actions == [] then
      []
    else
      var step := actions[0].forward(s);
      [RanForward(from)]
      + match step.status
        case Ok => CallsOf(actions[1..], from + 1, step.state)
        case Failed(_) => if actions[0].reversePrevious.Some? then [RanReverse(from)] else []
        case Panicked(_) => []
  }

  /** Recording does not change a run, and it records exactly the calls made. */
  lemma {:induction false} TracedRun<S>(actions: seq<Action<S>>, prefix: string, s: S, from: nat, record: seq<Event>)
    ensures var plain := Run(actions, prefix, s);
            Run(Traced(actions, from), prefix, Recorded(s, record))
            == Effect(Recorded(plain.state, record + CallsOf(actions, from, s)), plain.status)
  {
    if actions == [] {
      assert record + [] == record;
    } else {
      var step, rest := actions[0].forward(s), actions[1..];
      var traced := Traced(actions, from);
      assert traced[1..] == Traced(rest, from + 1);
      assert traced[0].forward(Recorded(s, record)) == Effect(Recorded(step.state,
              record + [RanForward(from)]), step.status);
      match step.status
      case Ok =>
        TracedRun(rest, prefix, step.state, from + 1, record + [RanForward(from)]);
        assert record + [RanForward(from)] + CallsOf(rest, from + 1, step.state)
            == record + ([RanForward(from)] + CallsOf(rest, from + 1, step.state));
      case Failed(_) =>
        assert record + [RanForward(from)] + [RanReverse(from)] == record + ([RanForward(from)] + [RanReverse(from)]);
        assert record + [RanForward(from)] == record + ([RanForward(from)] + []);
      case Panicked(_) =>
        assert record + [RanForward(from)] == record + ([RanForward(from)] + []);
    }
  }

  /** The compensation of step k, if step k fails and has one. */
  ghost function ReverseOf<S>(actions: seq<Action<S>>, s: S, k: nat, index: nat): seq<Event>
    requires k < |actions|
  {
    if actions[k].forward(Before(actions, k, s)).status.Failed? && actions[k].reversePrevious.Some?
    then [RanReverse(index)] else []
  }

  /** The calls of a run that stops at k: forwards 0 to k, then k's compensation if k failed and has one. */
  ghost function CallsUpTo<S>(actions: seq<Action<S>>, from: nat, s: S, k: nat): seq<Event>
    requires k <= |actions|
  {
    if k == |actions| then Forwards(from, from + k)
    else Forwards(from, from + k + 1) + ReverseOf(actions, s, k, from + k)
  }

  lemma CallsUpToNext<S>(actions: seq<Action<S>>, from: nat, s: S, k: nat)
    requires 0 < k <= |actions|
    ensures CallsUpTo(actions, from, s, k) ==
            [RanForward(from)] + CallsUpTo(actions[1..], from + 1, actions[0].forward(s).state, k - 1)
  {
    if k < |actions| {
      var rest, s1 := actions[1..], actions[0].forward(s).state;
      assert ReverseOf(actions, s, k, from + k) == ReverseOf(rest, s1, k - 1, from + 1 + (k - 1));
      Regroup(RanForward(from), Forwards(from + 1, from + k + 1), ReverseOf(actions, s, k, from + k));
    }
  }

  lemma Regroup(first: Event, middle: seq<Event>, last: seq<Event>)
    ensures [first] + middle + last == [first] + (middle + last)
  {
  }

  lemma CallsAtOnce<S>(actions: seq<Action<S>>, from: nat, s: S)
    requires StopsAt(actions, s, 0)
    ensures CallsOf(actions, from, s) == CallsUpTo(actions, from, s, 0)
  {
    if actions != [] {
      var step := actions[0].forward(s);
      assert Forwards(from, from + 1) == [RanForward(from)];
      match step.status
      case Ok => assert false;
      case Failed(_) =>
        assert CallsOf(actions, from, s) == [RanForward(from)] + ReverseOf(actions, s, 0, from);
      case Panicked(_) =>
        assert ReverseOf(actions, s, 0, from) == [];
    }
  }

  lemma {:induction false} CallsAtStop<S>(actions: seq<Action<S>>, from: nat, s: S, k: nat)
    requires StopsAt(actions, s, k)
    ensures CallsOf(actions, from, s) == CallsUpTo(actions, from, s, k)
  {
    if k == 0 {
      CallsAtOnce(actions, from, s);
    } else {
      StopsAtTail(actions, s, k);
      CallsAtStop(actions[1..], from + 1, actions[0].forward(s).state, k - 1);
      CallsUpToNext(actions, from, s, k);
    }
  }

  lemma {:induction false} BeforeNext<S>(actions: seq<Action<S>>, k: nat, s: S)
    requires k < |actions|
    ensures Before(actions, k + 1, s) == actions[k].forward(Before(actions, k, s)).state
  {
    if k > 0 {
      BeforeNext(actions[1..], k - 1, actions[0].forward(s).state);
    }
  }

  /** What every forward and every compensation keeps, a whole run keeps. */
  lemma {:induction false} RunKeeps<S(!new)>(actions: seq<Action<S>>, prefix: string, s: S, inv: S -> bool)
    requires inv(s)
    requires forall a, t :: a in actions && inv(t) ==> inv(a.forward(t).state)
    requires forall a, t :: a in actions && a.reversePrevious.Some? && inv(t) ==> inv(a.reversePrevious.value(t).state)
    ensures inv(Run(actions, prefix, s).state)
  {
    if actions != [] {
      assert actions[0] in actions;
      RunKeeps(actions[1..], prefix, actions[0].forward(s).state, inv);
    }
  }
}
