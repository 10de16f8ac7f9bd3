/** The circuit breaker before the sampler (gateway/pkg/sampler/breaker.go).  Times count from the
    zero time.Time, so every reading of the clock is positive. */
module Breakers {
  // ---------------------------------------------------------- specification

  datatype Call = Failed(at: int) | Succeeded

  /** How many failures followed the last success. */
  function Streak(h: seq<Call>): nat {
    if h == [] || h[|h| - 1].Succeeded? then 0 else 1 + Streak(h[..|h| - 1])
  }

  /** When the last call failed. */
  function LastFailure(h: seq<Call>): int
    requires Streak(h) > 0
  {
    h[|h| - 1].at
  }

  /** The breaker's promise about its failure history. */
  predicate Tripped(h: seq<Call>, maxFailures: int, timeout: int, now: int) {
    && Streak(h) >= (if maxFailures < 1 then 1 else maxFailures)
    && now <= LastFailure(h) + timeout
  }

  // ------------------------------------------------------------------ class

  class Breaker {
    var failures: int
    const maxFailures: int
    var resetTime: int
    const timeout: int

    ghost var history: seq<Call>

    ghost predicate Valid()
      reads this
    {
      && failures == Streak(history)
      && resetTime == if failures > 0 && failures >= maxFailures then LastFailure(history) + timeout else 0
    }

    constructor (maxFailures: int, timeout: int)
      ensures Valid() && history == [] && this.maxFailures == maxFailures && this.timeout == timeout
    {
      this.maxFailures := maxFailures;
      this.timeout := timeout;
      failures := 0;
      resetTime := 0;
      history := [];
    }

    method Open(now: int) returns (open: bool)
      requires Valid() && now > 0
      ensures open <==> Tripped(history, maxFailures, timeout, now)
    {
      if failures < maxFailures {
        return false;
      }
      if now > resetTime {
        return false;
      }
      return true;
    }

    method Success()
      requires Valid()
      modifies this
      ensures Valid() && history == old(history) + [Succeeded]
    {
      failures := 0;
      resetTime := 0;
      history := history + [Succeeded];
    }

    method Fail(now: int)
      requires Valid()
      modifies this
      ensures Valid() && history == old(history) + [Failed(now)]
    {
      failures := failures + 1;
      if failures >= maxFailures {
        resetTime := now + timeout;
      }
      history := history + [Failed(now)];
      assert history[..|history| - 1] == old(history);
    }
  }

  // ------------------------------------------------- a caller of a dead sampler

  /** An attempt asks the breaker at start; if let through, its RPC has failed by end. */
  datatype Attempt = Attempt(start: int, end: int)

  /** One caller: attempts do not overlap. */
  ghost predicate Sequential(a: seq<Attempt>) {
    && (forall i | 0 <= i < |a| :: a[i].start <= a[i].end)
    && (forall i, j | 0 <= i < j < |a| :: a[i].end <= a[j].start)
  }

  function Failures(made: seq<Attempt>): (h: seq<Call>)
    ensures |h| == |made|
  {
    seq(|made|, i requires 0 <= i < |made| => Failed(made[i].end))
  }

  /** The attempts that the breaker lets through, when all that were let through fail. */
  function Made(maxFailures: int, timeout: int, a: seq<Attempt>): (made: seq<Attempt>)
    ensures |made| <= |a|
  {
    if a == [] then []
    else
      var before := Made(maxFailures, timeout, a[..|a| - 1]);
      if Tripped(Failures(before), maxFailures, timeout, a[|a| - 1].start) then before
      else before + [a[|a| - 1]]
  }

  lemma {:induction false} FailuresStreak(made: seq<Attempt>)
    ensures Streak(Failures(made)) == |made|
    ensures made != [] ==> LastFailure(Failures(made)) == made[|made| - 1].end
  {
    if made != [] {
      FailuresStreak(made[..|made| - 1]);
      assert Failures(made)[..|made| - 1] == Failures(made[..|made| - 1]);
    }
  }

  /** While all calls fail, an attempt gets through exactly if too few have failed to trip the breaker, or the
      timeout has passed since the last one. */
  lemma MadeExactly(maxFailures: int, timeout: int, a: seq<Attempt>, at: Attempt)
    ensures var made := Made(maxFailures, timeout, a);
            Made(maxFailures, timeout, a + [at])
            == if |made| < maxFailures || made == [] || at.start > made[|made| - 1].end + timeout
               then made + [at] else made
  {
    assert (a + [at])[..|a|] == a;
    FailuresStreak(Made(maxFailures, timeout, a));
    hide Streak, LastFailure;
  }

  lemma {:induction false} MadeInOrder(maxFailures: int, timeout: int, a: seq<Attempt>)
    requires Sequential(a)
    ensures Sequential(Made(maxFailures, timeout, a))
    ensures forall m | m in Made(maxFailures, timeout, a) :: m in a
  {
    if a != [] {
      var b := a[..|a| - 1];
      assert Sequential(b);
      MadeInOrder(maxFailures, timeout, b);
      var before := Made(maxFailures, timeout, b);
      forall i | 0 <= i < |before| ensures before[i].end <= a[|a| - 1].start {
        assert before[i] in b;
      }
    }
  }

  /** After the trip, every RPC waits out the timeout behind the one before it. */
  lemma {:induction false} MadeApart(maxFailures: int, timeout: int, a: seq<Attempt>, k: nat)
    requires maxFailures >= 1 && Sequential(a)
    requires maxFailures <= k < |Made(maxFailures, timeout, a)|
    ensures var m := Made(maxFailures, timeout, a); m[k].start > m[k - 1].end + timeout
    decreases |a|
  {
    var before := Made(maxFailures, timeout, a[..|a| - 1]);
    if k < |before| {
      MadeApart(maxFailures, timeout, a[..|a| - 1], k);
    } else {
      FailuresStreak(before);
    }
  }

  lemma {:induction false} MadeSpread(maxFailures: int, timeout: int, a: seq<Attempt>, k: nat)
    requires maxFailures >= 1 && timeout >= 0 && Sequential(a)
    requires maxFailures <= k < |Made(maxFailures, timeout, a)|
    ensures var m := Made(maxFailures, timeout, a);
            m[k].start > m[maxFailures - 1].end + (k - maxFailures + 1) * timeout
    decreases k
  {
    MadeApart(maxFailures, timeout, a, k);
    MadeInOrder(maxFailures, timeout, a);
    if k > maxFailures {
      MadeSpread(maxFailures, timeout, a, k - 1);
      var m := Made(maxFailures, timeout, a);
      assert m[k - 1].start <= m[k - 1].end;
      assert (k - maxFailures + 1) * timeout == (k - 1 - maxFailures + 1) * timeout + timeout;
    }
  }

  lemma MultiplyCancels(a: int, b: int, d: int)
    requires d > 0 && a * d < b * d
    ensures a < b
  {
    assert (b - a) * d > 0;
  }

  lemma DivisionBound(j: int, d: int, t: int)
    requires d > 0 && j * d <= t
    ensures j <= t / d
  {
    var q := t / d;
    assert t == q * d + t % d;
    assert (q + 1) * d == q * d + d;
    MultiplyCancels(j, q + 1, d);
  }

  /** The RPCs started up to a time t after the trip number at most maxFailures + t / timeout. */
  lemma FewCallsWhileDead(maxFailures: int, timeout: int, a: seq<Attempt>, k: nat, t: int)
    requires maxFailures >= 1 && timeout > 0 && Sequential(a) && t >= 0
    requires maxFailures <= |Made(maxFailures, timeout, a)| && k < |Made(maxFailures, timeout, a)|
    requires var m := Made(maxFailures, timeout, a); m[k].start <= m[maxFailures - 1].end + t
    ensures k + 1 <= maxFailures + t / timeout
  {
    if k >= maxFailures {
      MadeSpread(maxFailures, timeout, a, k);
      DivisionBound(k - maxFailures + 1, timeout, t);
    } else {
      assert t / timeout >= 0;
    }
  }
}
