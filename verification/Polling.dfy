/** Timed polling, common/utils.go.  The clock and the polled function are given by their behaviour at
    each turn: how long the call takes, how much longer than asked the sleep lasts, what it reports. */
module Polling {
  import opened Wrappers

  datatype Report = Finished | NotYet | Broken(message: string)

  datatype Turn = Turn(report: Report, callTime: nat, oversleep: nat)

  type Behaviour = nat -> Turn

  const TIMEOUT := "Timeout reached"

  /** Time since the start when turn k begins. */
  function Elapsed(turns: Behaviour, waitTime: nat, k: nat): nat {
    if k == 0 then 0
    else Elapsed(turns, waitTime, k - 1) + turns(k - 1).callTime + waitTime + turns(k - 1).oversleep
  }

  /** Polling goes past turns 0 to k - 1: each began in time and reported that it was not finished. */
  ghost predicate StillPolling(turns: Behaviour, waitTime: nat, timeout: int, k: nat) {
    k > 0 ==>
      && StillPolling(turns, waitTime, timeout, k - 1)
      && Elapsed(turns, waitTime, k - 1) <= timeout && turns(k - 1).report == NotYet
  }

  lemma {:induction false} ElapsedAtLeast(turns: Behaviour, waitTime: nat, k: nat)
    ensures Elapsed(turns, waitTime, k) >= k * waitTime
  {
    if k > 0 {
      ElapsedAtLeast(turns, waitTime, k - 1);
      assert k * waitTime == (k - 1) * waitTime + waitTime;
    }
  }

  function Total(f: nat -> nat, k: nat): nat {
    if k == 0 then 0 else Total(f, k - 1) + f(k - 1)
  }

  /** The time since the start is the time of the calls, of the waits asked for and of the oversleeping. */
  lemma {:induction false} ElapsedAdds(turns: Behaviour, waitTime: nat, k: nat)
    ensures Elapsed(turns, waitTime, k) ==
            Total(i => turns(i).callTime, k) + k * waitTime + Total(i => turns(i).oversleep, k)
  {
    if k > 0 {
      ElapsedAdds(turns, waitTime, k - 1);
      assert k * waitTime == (k - 1) * waitTime + waitTime;
    }
  }

  /** A report that ends polling, and the error it ends with. */
  predicate Final(report: Report, err: Option<string>) {
    match report
    case Finished => err.None?
    case NotYet => false
    case Broken(message) => err == Some(message)
  }

  /** Polling with this outcome stopped at the first turn that began too late or reported something
      final. */
  ghost predicate EndsWith(turns: Behaviour, waitTime: nat, timeout: int, err: Option<string>, calls: nat) {
    || (err == Some(TIMEOUT) && StillPolling(turns, waitTime, timeout, calls) &&
            Elapsed(turns, waitTime, calls) > timeout)
    || (calls > 0 && StillPolling(turns, waitTime, timeout, calls - 1)
        && Elapsed(turns, waitTime, calls - 1) <= timeout && Final(turns(calls - 1).report, err))
  }

  /** At most timeout / waitTime + 1 calls, and none if the timeout is negative. */
  ghost predicate FewCalls(calls: nat, waitTime: nat, timeout: int)
    requires waitTime > 0
  {
    if timeout < 0 then calls == 0 else calls <= timeout / waitTime + 1
  }

  lemma OneMoreCall(turns: Behaviour, waitTime: nat, timeout: int, calls: nat)
    requires waitTime > 0 && Elapsed(turns, waitTime, calls) <= timeout
    ensures FewCalls(calls + 1, waitTime, timeout)
  {
    ElapsedAtLeast(turns, waitTime, calls);
    QuotientBound(calls, waitTime, timeout);
  }

  /** PollingWithTimeout, also returning the number of calls it made. */
  method PollingWithTimeout(turns: Behaviour, waitTime: nat, timeout: int) returns (err: Option<string>, calls: nat)
    requires waitTime > 0
    ensures EndsWith(turns, waitTime, timeout, err, calls)
    ensures err.None? ==> calls > 0 && turns(calls - 1).report == Finished
    ensures FewCalls(calls, waitTime, timeout)
  {
    var now: int := 0;
    calls := 0;
    while now <= timeout
      invariant now == Elapsed(turns, waitTime, calls)
      invariant StillPolling(turns, waitTime, timeout, calls)
      invariant FewCalls(calls, waitTime, timeout)
      decreases timeout - now
    {
      OneMoreCall(turns, waitTime, timeout, calls);
      var turn := turns(calls);
      if turn.report.Broken? {
        return Some(turn.report.message), calls + 1;
      }
      if turn.report.Finished? {
        return None, calls + 1;
      }
      now := now + turn.callTime + waitTime + turn.oversleep;
      calls := calls + 1;
    }
    err := Some(TIMEOUT);
  }

  lemma TimesMonotone(a: int, b: int, w: nat)
    requires a <= b
    ensures a * w <= b * w
  {
  }

  lemma QuotientBound(a: nat, w: nat, t: nat)
    requires w > 0 && a * w <= t
    ensures a <= t / w
  {
    var q := t / w;
    assert t < (q + 1) * w;
    if a >= q + 1 {
      TimesMonotone(q + 1, a, w);
    }
  }
}
