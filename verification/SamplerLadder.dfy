/** The sampler's policy and its ladder of rules (sampler/pkg/policy/policy.go,
    sampler/pkg/service/service.go:105-166). */
module SamplerLadders {
  import opened SamplerStores
  import opened SamplerAverages

  // ----------------------------------------------------------------- policy

  datatype Severity = Unspecified | Debug | Info | Warn | Error | Fatal

  datatype Config = Config(
    noveltyWindow: int, warmupN: nat, log2Enabled: bool, steadyKDebug: nat, steadyKInfo: nat, steadyKWarn: nat,
    spikeFactor: real, minSpikePerMin: nat, budget10mDefault: nat, version: string)

  datatype Policy = Policy(
    severityKeep: map<Severity, bool>, noveltyWindow: int, warmupN: nat, log2Enabled: bool,
    steadyK: map<Severity, nat>, spikeFactor: real, minSpikePerMin: nat, budget10mDefault: nat, version: string)

  function New(c: Config): Policy {
    Policy(map[Error := true, Fatal := true, Warn := false], c.noveltyWindow, c.warmupN, c.log2Enabled,
           map[Debug := c.steadyKDebug, Info := c.steadyKInfo, Warn := c.steadyKWarn],
           c.spikeFactor, c.minSpikePerMin, c.budget10mDefault, c.version)
  }

  function GetSteadyK(p: Policy, sev: Severity): (k: nat)
    ensures k > 0
  {
    if sev in p.steadyK && p.steadyK[sev] != 0 then p.steadyK[sev] else 100
  }

  function BitAnd(a: nat, b: nat): nat {
    if a == 0 || b == 0 then 0 else 2 * BitAnd(a / 2, b / 2) + if a % 2 == 1 && b % 2 == 1 then 1 else 0
  }

  predicate IsPowerOfTwo(n: nat) { n != 0 && BitAnd(n, n - 1) == 0 }

  // ----------------------------------------------------------------- ladder

  datatype Action = Keep | Suppress

  datatype Reason = Severe | Novel | Spike | Warmup | Log2Milestone | SteadyK | Budget

  /** A note before it is formatted. */
  datatype Note =
    | NoNote
    | FirstOccurrence
    | CurrentAndAverage(cur: nat, ema: real)
    | TotalOf(n: nat, warmupN: nat)
    | Total(n: nat)
    | OverBudget(win10m: nat, budget: nat)

  datatype Verdict = Verdict(action: Action, reason: Reason, sampleRate: nat, note: Note)

  predicate Spiking(p: Policy, c: Counts) {
    c.ema > 0.0 && c.curMin as real >= p.spikeFactor * c.ema && c.curMin >= p.minSpikePerMin
  }

  predicate OnFloor(p: Policy, sev: Severity) { sev in p.severityKeep && p.severityKeep[sev] }

  function Evaluate(p: Policy, sev: Severity, c: Counts): Verdict {
    if OnFloor(p, sev) then Verdict(Keep, Severe, 1, NoNote)
    else if p.noveltyWindow > 0 && c.total <= 1 then Verdict(Keep, Novel, 1, FirstOccurrence)
    else if Spiking(p, c) then Verdict(Keep, Spike, 1, CurrentAndAverage(c.curMin, c.ema))
    else if c.total <= p.warmupN then Verdict(Keep, Warmup, 1, TotalOf(c.total, p.warmupN))
    else if p.log2Enabled && IsPowerOfTwo(c.total) then Verdict(Keep, Log2Milestone, 1, Total(c.total))
    else
      var k := GetSteadyK(p, sev);
      // the rate is sent in 32 bits
      var rate := k % 0x1_0000_0000;
      var action := if c.total % k == 0 then Keep else Suppress;
      if p.budget10mDefault > 0 && c.win10m > p.budget10mDefault && (sev == Debug || sev == Info)
      then Verdict(action, Budget, rate, OverBudget(c.win10m, p.budget10mDefault))
      else Verdict(action, SteadyK, rate, NoNote)
  }

  // ----------------------------------------------------------- powers of two

  function Pow2(k: nat): (r: nat)
    ensures r > 0
  {
    if k == 0 then 1 else 2 * Pow2(k - 1)
  }

  lemma {:induction false} AndSelf(n: nat)
    ensures BitAnd(n, n) == n
  {
    if n != 0 { AndSelf(n / 2); }
  }

  ghost predicate IsPow2(n: nat) { exists k: nat :: n == Pow2(k) }

  lemma IsPow2Doubles(m: nat)
    ensures IsPow2(2 * m) <==> IsPow2(m)
  {
    if IsPow2(m) {
      var k: nat :| m == Pow2(k);
      assert 2 * m == Pow2(k + 1);
    }
    if IsPow2(2 * m) {
      var k: nat :| 2 * m == Pow2(k);
      assert k > 0;
      assert m == Pow2(k - 1);
    }
  }

  lemma Twice(n: nat)
    ensures (2 * n) % 2 == 0
  {
  }

  lemma {:induction false} Pow2Even(k: nat)
    ensures Pow2(k) == 1 || Pow2(k) % 2 == 0
  {
    if k > 0 { Twice(Pow2(k - 1)); }
  }

  lemma {:induction false} OddPowers(n: nat)
    requires n % 2 == 1
    ensures IsPow2(n) <==> n == 1
  {
    if n == 1 { assert n == Pow2(0); }
    forall k: nat | n == Pow2(k) ensures n == 1 { Pow2Even(k); }
  }

  lemma {:induction false} OddAnd(n: nat)
    requires n % 2 == 1
    ensures BitAnd(n, n - 1) == n - 1
  {
    assert (n - 1) / 2 == n / 2;
    AndSelf(n / 2);
  }

  /** The bit trick finds exactly the powers of two. */
  lemma {:induction false} PowerOfTwoExactly(n: nat)
    ensures IsPowerOfTwo(n) <==> IsPow2(n)
  {
    if n == 0 {
    } else if n % 2 == 0 {
      PowerOfTwoExactly(n / 2);
      IsPow2Doubles(n / 2);
      assert (n - 1) / 2 == n / 2 - 1;
      hide IsPow2;
    } else {
      OddPowers(n);
      OddAnd(n);
      hide IsPow2, BitAnd;
    }
  }

  /** The binary logarithm, rounded down. */
  function Log2(n: nat): nat
    requires n > 0
  {
    if n == 1 then 0 else 1 + Log2(n / 2)
  }

  lemma {:induction false} Log2Bounds(n: nat)
    requires n > 0
    ensures Pow2(Log2(n)) <= n < Pow2(Log2(n) + 1)
  {
    if n > 1 { Log2Bounds(n / 2); }
  }

  lemma {:induction false} Pow2Grows(j: nat, k: nat)
    requires j < k
    ensures 2 * Pow2(j) <= Pow2(k)
  {
    if j < k - 1 { Pow2Grows(j, k - 1); }
  }

  /** The logarithm grows exactly at the powers of two. */
  lemma Log2Next(n: nat)
    requires n > 0
    ensures Log2(n + 1) == Log2(n) + if IsPow2(n + 1) then 1 else 0
  {
    var l, m := Log2(n), Log2(n + 1);
    Log2Bounds(n);
    Log2Bounds(n + 1);
    if m > l + 1 { Pow2Grows(l + 1, m); }
    if m < l { Pow2Grows(m, l); }
    assert m == l + 1 ==> n + 1 == Pow2(l + 1);
    if IsPow2(n + 1) {
      var k: nat :| n + 1 == Pow2(k);
      if k < l { Pow2Grows(k, l); }
      if k > l + 1 { Pow2Grows(l + 1, k); }
    }
  }

  // ------------------------------------------------------------ who is kept

  /** What the ladder keeps besides the floor and the spikes depends on the total alone. */
  ghost predicate Due(p: Policy, sev: Severity, total: nat) {
    || (p.noveltyWindow > 0 && total <= 1)
    || total <= p.warmupN
    || (p.log2Enabled && IsPow2(total))
    || total % GetSteadyK(p, sev) == 0
  }

  lemma KeptExactly(p: Policy, sev: Severity, c: Counts)
    ensures Evaluate(p, sev, c).action == Keep <==>
            || (sev in p.severityKeep && p.severityKeep[sev])
            || (c.ema > 0.0 && c.curMin as real >= p.spikeFactor * c.ema && c.curMin >= p.minSpikePerMin)
            || Due(p, sev, c.total)
  {
    PowerOfTwoExactly(c.total);
    hide IsPowerOfTwo, IsPow2;
  }

  lemma KeptBecause(p: Policy, sev: Severity, c: Counts)
    ensures Evaluate(p, sev, c).action == Keep <==> OnFloor(p, sev) || Spiking(p, c) || Due(p, sev, c.total)
  {
    KeptExactly(p, sev, c);
    hide Evaluate, Due;
  }

  /** Every how many events a policy keeps one of a severity, as configured; 100 stands in for zero. */
  function Configured(c: Config, sev: Severity): int {
    match sev
    case Debug => c.steadyKDebug
    case Info => c.steadyKInfo
    case Warn => c.steadyKWarn
    case _ => 0
  }

  /** An event that no other rung keeps is kept exactly if its total is a multiple of the configured rate. */
  lemma ThinnedAsConfigured(c: Config, sev: Severity, counts: Counts)
    requires Evaluate(New(c), sev, counts).reason in {SteadyK, Budget}
    ensures var k := Configured(c, sev);
            && (k > 0 ==> (Evaluate(New(c), sev, counts).action == Keep <==> exists q: nat :: counts.total == q * k))
            && (k == 0 ==> (Evaluate(New(c), sev, counts).action == Keep <==> exists q: nat :: counts.total == q * 100))
  {
    var k := if Configured(c, sev) > 0 then Configured(c, sev) else 100;
    assert Evaluate(New(c), sev, counts).action == Keep <==> counts.total % k == 0;
    hide Evaluate;
    MultipleExactly(counts.total, k);
  }

  /** In the numbers of the configuration: below error, an event is kept exactly if it is new, spikes, warms up, is a
      milestone, or is due by the rate of its severity. */
  lemma KeptAsConfigured(c: Config, sev: Severity, counts: Counts)
    requires sev != Error && sev != Fatal
    ensures var n, k := counts.total, Configured(c, sev);
            Evaluate(New(c), sev, counts).action == Keep <==>
            || (c.noveltyWindow > 0 && n <= 1)
            || (counts.ema > 0.0 && counts.curMin as real >= c.spikeFactor * counts.ema
                && counts.curMin >= c.minSpikePerMin)
            || n <= c.warmupN || (c.log2Enabled && IsPow2(n)) || n % (if k > 0 then k else 100) == 0
  {
    KeptExactly(New(c), sev, counts);
    hide Evaluate, IsPow2;
  }

  /** The budget never changes what is kept, only the reason: over it, for debug and info alone. */
  lemma BudgetNamesOnly(c: Config, sev: Severity, counts: Counts)
    ensures Evaluate(New(c), sev, counts).action == Evaluate(New(c.(budget10mDefault := 0)), sev, counts).action
    ensures Evaluate(New(c), sev, counts).reason == Budget <==>
              && Evaluate(New(c.(budget10mDefault := 0)), sev, counts).reason == SteadyK
              && c.budget10mDefault > 0 && counts.win10m > c.budget10mDefault && (sev == Debug || sev == Info)
  {
  }

  lemma MultipleExactly(t: nat, k: nat)
    requires k > 0
    ensures t % k == 0 <==> exists q: nat :: t == q * k
  {
    if t % k == 0 { assert t == (t / k) * k; }
    if q: nat :| t == q * k { QuotientUnique(t, k, q, 0); }
  }

  /** The conditions of the ladder, top to bottom; the last always holds. */
  ghost function Rungs(p: Policy, sev: Severity, c: Counts): seq<(bool, Reason)> {
    [(OnFloor(p, sev), Severe),
     (p.noveltyWindow > 0 && c.total <= 1, Novel),
     (c.ema > 0.0 && c.curMin as real >= p.spikeFactor * c.ema && c.curMin >= p.minSpikePerMin, Spike),
     (c.total <= p.warmupN, Warmup),
     (p.log2Enabled && IsPow2(c.total), Log2Milestone),
     (p.budget10mDefault > 0 && c.win10m > p.budget10mDefault && sev in {Debug, Info}, Budget),
     (true, SteadyK)]
  }

  /** The first rung that holds gives the reason; only the last two thin out. */
  lemma FirstRung(p: Policy, sev: Severity, c: Counts) returns (i: nat)
    ensures i < 7 && Rungs(p, sev, c)[i] == (true, Evaluate(p, sev, c).reason)
    ensures forall j | 0 <= j < i :: !Rungs(p, sev, c)[j].0
    ensures i < 5 ==> Evaluate(p, sev, c).action == Keep && Evaluate(p, sev, c).sampleRate == 1
    ensures i >= 5 ==> Evaluate(p, sev, c).sampleRate == GetSteadyK(p, sev) % 0x1_0000_0000
    ensures Evaluate(p, sev, c).note
         == [NoNote, FirstOccurrence, CurrentAndAverage(c.curMin, c.ema), TotalOf(c.total, p.warmupN), Total(c.total),
             OverBudget(c.win10m, p.budget10mDefault), NoNote][i]
  {
    PowerOfTwoExactly(c.total);
    hide IsPowerOfTwo, IsPow2, OnFloor;
    i := match Evaluate(p, sev, c).reason
      case Severe => 0
      case Novel => 1
      case Spike => 2
      case Warmup => 3
      case Log2Milestone => 4
      case Budget => 5
      case SteadyK => 6;
  }

  /** Errors and worse are always kept. */
  lemma SevereKept(c: Config, sev: Severity, counts: Counts)
    ensures Evaluate(New(c), sev, counts).reason == Severe <==> sev == Error || sev == Fatal
    ensures sev == Error || sev == Fatal ==> Evaluate(New(c), sev, counts) == Verdict(Keep, Severe, 1, NoNote)
  {
  }

  ghost predicate Consecutive(cs: seq<Counts>) {
    forall i | 0 <= i < |cs| - 1 :: cs[i + 1].total == cs[i].total + 1
  }

  lemma {:induction false} TotalAt(cs: seq<Counts>, i: nat)
    requires Consecutive(cs) && i < |cs|
    ensures cs[i].total == cs[0].total + i
  {
    if i > 0 { TotalAt(cs, i - 1); }
  }

  lemma MultipleWithin(t: nat, k: nat) returns (i: nat)
    requires k > 0
    ensures i < k && (t + i) % k == 0
  {
    var q, r := t / k, t % k;
    assert t == q * k + r;
    if r == 0 {
      i := 0;
    } else {
      i := k - r;
      assert t + i == (q + 1) * k;
      QuotientUnique(t + i, k, q + 1, 0);
    }
  }

  lemma AtLeastOnce(x: int, k: nat)
    requires x >= 1
    ensures x * k >= k
  {
  }

  lemma QuotientUnique(a: nat, k: nat, q: nat, r: nat)
    requires k > 0 && a == q * k + r && r < k
    ensures a / k == q && a % k == r
  {
    var d, m := a / k, a % k;
    assert a == d * k + m;
    assert (q - d) * k == m - r && (d - q) * k == r - m;
    if d < q { AtLeastOnce(q - d, k); }
    if d > q { AtLeastOnce(d - q, k); }
  }

  /** Of any K consecutive events, one is kept, whatever the average, the windows and the spikes. */
  lemma OneInK(p: Policy, sev: Severity, cs: seq<Counts>) returns (i: nat)
    requires Consecutive(cs) && |cs| >= GetSteadyK(p, sev)
    ensures i < GetSteadyK(p, sev) && Evaluate(p, sev, cs[i]).action == Keep
  {
    i := MultipleWithin(cs[0].total, GetSteadyK(p, sev));
    TotalAt(cs, i);
    KeptBecause(p, sev, cs[i]);
    hide Evaluate;
  }

  // ------------------------------------------------------ how many are kept

  function Kept(p: Policy, sev: Severity, cs: seq<Counts>): nat {
    if cs == [] then 0
    else Kept(p, sev, cs[..|cs| - 1]) + if Evaluate(p, sev, cs[|cs| - 1]).action == Keep then 1 else 0
  }

  /** The counters of all events of a key, from its first. */
  ghost predicate FromFirst(cs: seq<Counts>) {
    forall i | 0 <= i < |cs| :: cs[i].total == i + 1
  }

  ghost predicate NoSpikes(p: Policy, cs: seq<Counts>) {
    forall i | 0 <= i < |cs| :: !Spiking(p, cs[i])
  }

  /** How many of 1, ..., n are multiples of k. */
  function Multiples(n: nat, k: nat): nat
    requires k > 0
  {
    n / k
  }

  function Bound(p: Policy, sev: Severity, n: nat): nat {
    if n == 0 then 0
    else (if p.warmupN < 1 then 1 else p.warmupN) + Log2(n) + 1 + Multiples(n, GetSteadyK(p, sev))
  }

  lemma DivNext(n: nat, k: nat)
    requires k > 0
    ensures Multiples(n + 1, k) == Multiples(n, k) + if (n + 1) % k == 0 then 1 else 0
  {
    var q, r := n / k, n % k;
    assert n == q * k + r;
    if r + 1 < k {
      QuotientUnique(n + 1, k, q, r + 1);
    } else {
      assert n + 1 == (q + 1) * k + 0;
      QuotientUnique(n + 1, k, q + 1, 0);
    }
  }

  /** The bound, with the warm-up counted only as far as it has gone. */
  ghost function RunningBound(p: Policy, sev: Severity, n: nat): nat {
    if n == 0 then 0
    else
      var w := if p.warmupN < 1 then 1 else p.warmupN;
      (if n < w then n else w) + Log2(n) + 1 + Multiples(n, GetSteadyK(p, sev))
  }

  lemma RunningNext(p: Policy, sev: Severity, n: nat)
    ensures RunningBound(p, sev, n + 1) >= RunningBound(p, sev, n) + if Due(p, sev, n + 1) then 1 else 0
  {
    var k := GetSteadyK(p, sev);
    DivNext(n, k);
    if n > 0 { Log2Next(n); }
    hide GetSteadyK, IsPow2, Multiples;
  }

  /** How many events spike. */
  function Spikes(p: Policy, cs: seq<Counts>): nat {
    if cs == [] then 0 else Spikes(p, cs[..|cs| - 1]) + if Spiking(p, cs[|cs| - 1]) then 1 else 0
  }

  lemma {:induction false} KeptRunning(p: Policy, sev: Severity, cs: seq<Counts>)
    requires !OnFloor(p, sev) && FromFirst(cs)
    ensures Kept(p, sev, cs) <= RunningBound(p, sev, |cs|) + Spikes(p, cs)
  {
    if cs != [] {
      KeptRunning(p, sev, cs[..|cs| - 1]);
      KeptBecause(p, sev, cs[|cs| - 1]);
      RunningNext(p, sev, |cs| - 1);
      hide Evaluate, RunningBound, Due, Spiking;
    }
  }

  lemma {:induction false} NoneSpikes(p: Policy, cs: seq<Counts>)
    requires NoSpikes(p, cs)
    ensures Spikes(p, cs) == 0
  {
    if cs != [] { NoneSpikes(p, cs[..|cs| - 1]); }
  }

  /** Besides its spikes, few of the first n events of a key are kept. */
  lemma KeptAtMost(p: Policy, sev: Severity, cs: seq<Counts>)
    requires !OnFloor(p, sev) && FromFirst(cs)
    ensures Kept(p, sev, cs) <= Bound(p, sev, |cs|) + Spikes(p, cs)
    ensures NoSpikes(p, cs) ==> Kept(p, sev, cs) <= Bound(p, sev, |cs|)
  {
    KeptRunning(p, sev, cs);
    if NoSpikes(p, cs) { NoneSpikes(p, cs); }
    hide Kept, Multiples, GetSteadyK, Spikes;
  }

  // ----------------------------------------------------------------- spikes

  /** The largest count of a minute that can spike. */
  function SpikeLimit(f: real, lag: real): real
    requires f > 1.0
  {
    f * lag / (f - 1.0)
  }

  /** The factor asks for more than the newest count can fall behind. */
  predicate Steep(f: real, alpha: real) { f * alpha > 1.0 }

  lemma SpikeArithmetic(c: real, ema: real, lag: real, f: real)
    requires f > 1.0 && c >= f * ema && ema >= c - lag
    ensures c <= SpikeLimit(f, lag)
  {
    Scale(c - lag, ema, f);
    assert f * (c - lag) == f * c - f * lag;
    assert (f - 1.0) * c == f * c - c <= f * lag;
    DivideBoth((f - 1.0) * c, f * lag, f - 1.0);
    assert (f - 1.0) * c / (f - 1.0) == c;
  }

  lemma DivideBoth(x: real, y: real, d: real)
    requires d > 0.0 && x <= y
    ensures x / d <= y / d
  {
    assert y / d - x / d == (y - x) / d;
  }

  lemma SpikeReason(p: Policy, sev: Severity, c: Counts)
    requires Evaluate(p, sev, c).reason == Spike
    ensures c.curMin as real >= p.spikeFactor * c.ema
  {
  }

  /** After gradual events, in minute order for one, only minutes with few events can spike. */
  lemma SpikesAreSmall(p: Policy, sev: Severity, h: seq<Event>, alpha: real)
    requires Weight(alpha) && p.spikeFactor > 1.0 && h != [] && Gradual(h)
    requires Evaluate(p, sev, Returned(h, alpha)).reason == Spike
    ensures Returned(h, alpha).curMin as real <= SpikeLimit(p.spikeFactor, Lag(alpha))
  {
    hide Returned, Lag, Evaluate, SpikeLimit;
    var c := Returned(h, alpha);
    AverageLag(h, alpha);
    SpikeReason(p, sev, c);
    SpikeArithmetic(c.curMin as real, c.ema, Lag(alpha), p.spikeFactor);
  }

  lemma TooSteep(c: real, ema: real, alpha: real, f: real)
    requires c >= 1.0 && ema >= alpha * c && alpha > 0.0 && Steep(f, alpha)
    ensures c < f * ema
  {
    if f <= 0.0 {
      NotPositive(f, alpha);
    }
    Scale(alpha * c, ema, f);
    assert f * (alpha * c) == (f * alpha) * c;
    assert (f * alpha - 1.0) * c == (f * alpha) * c - c;
    StrictProduct(f * alpha - 1.0, c);
  }

  lemma StrictProduct(x: real, y: real)
    requires x > 0.0 && y > 0.0
    ensures x * y > 0.0
  {
  }

  /** With a steep factor nothing ever spikes, in any order of events. */
  lemma SteepNeverSpikes(p: Policy, h: seq<Event>, alpha: real)
    requires Weight(alpha) && Steep(p.spikeFactor, alpha) && h != []
    ensures !Spiking(p, Returned(h, alpha))
  {
    hide Returned;
    AverageFollows(h, alpha);
    CountersOrdered(h, alpha);
    var c := Returned(h, alpha);
    TooSteep(c.curMin as real, c.ema, alpha, p.spikeFactor);
  }

  /** All that Touch returned in a run. */
  ghost function AllReturned(h: seq<Event>, alpha: real): (cs: seq<Counts>)
    ensures |cs| == |h|
    ensures forall i | 0 <= i < |h| :: cs[i] == Returned(h[..i + 1], alpha)
  {
    seq(|h|, i requires 0 <= i < |h| => Returned(h[..i + 1], alpha))
  }

  /** So every run of a key keeps few of its events. */
  lemma SteepKeepsFew(p: Policy, sev: Severity, h: seq<Event>, alpha: real)
    requires Weight(alpha) && Steep(p.spikeFactor, alpha) && !OnFloor(p, sev)
    ensures Kept(p, sev, AllReturned(h, alpha)) <= Bound(p, sev, |h|)
  {
    var cs := AllReturned(h, alpha);
    forall i | 0 <= i < |h| ensures cs[i].total == i + 1 && !Spiking(p, cs[i]) {
      CountersOrdered(h[..i + 1], alpha);
      SteepNeverSpikes(p, h[..i + 1], alpha);
    }
    KeptAtMost(p, sev, cs);
    hide Returned;
  }

  // ------------------------------------------------------ spikes by the minute

  /** The counts of events whose minutes are ms: a new minute starts at one, the same goes on. */
  ghost predicate ByMinute(cs: seq<Counts>, ms: seq<int>) {
    && |cs| == |ms|
    && (cs != [] ==> cs[0].curMin == 1)
    && forall i | 0 < i < |cs| :: cs[i].curMin == if ms[i] == ms[i - 1] then cs[i - 1].curMin + 1 else 1
  }

  /** How many stretches of one minute there are. */
  function Stretches(ms: seq<int>): nat {
    if |ms| <= 1 then |ms|
    else Stretches(ms[..|ms| - 1]) + if ms[|ms| - 1] != ms[|ms| - 2] then 1 else 0
  }

  ghost predicate SpikesUpTo(p: Policy, cs: seq<Counts>, l: nat) {
    forall i | 0 <= i < |cs| :: Spiking(p, cs[i]) ==> cs[i].curMin <= l
  }

  function Each(n: nat, l: nat): nat { n * l }

  lemma OneMore(n: nat, l: nat)
    ensures Each(n + 1, l) == Each(n, l) + l && Each(0, l) == 0
  {
  }

  function Lower(a: nat, b: nat): nat { if a < b then a else b }

  lemma {:induction false} SpikesPerStretch(p: Policy, cs: seq<Counts>, ms: seq<int>, l: nat)
    requires ByMinute(cs, ms) && SpikesUpTo(p, cs, l) && cs != []
    ensures Stretches(ms) > 0
    ensures Spikes(p, cs) <= Each(Stretches(ms) - 1, l) + Lower(l, cs[|cs| - 1].curMin)
  {
    hide Spiking, Times;
    var n := |cs| - 1;
    if n == 0 {
      assert cs[..0] == [];
      OneMore(0, l);
    } else {
      var ds, ns := cs[..n], ms[..n];
      SpikesPerStretch(p, ds, ns, l);
      assert ds[n - 1] == cs[n - 1] && ns[n - 1] == ms[n - 1];
      OneMore(Stretches(ns) - 1, l);
    }
  }

  /** At most l spikes in every stretch. */
  lemma SpikesAtMost(p: Policy, cs: seq<Counts>, ms: seq<int>, l: nat)
    requires ByMinute(cs, ms) && SpikesUpTo(p, cs, l)
    ensures Spikes(p, cs) <= Each(Stretches(ms), l)
  {
    if cs != [] {
      SpikesPerStretch(p, cs, ms, l);
      OneMore(Stretches(ms) - 1, l);
    }
  }

  function MinutesOf(h: seq<Event>): (ms: seq<int>)
    ensures |ms| == |h| && forall i | 0 <= i < |h| :: ms[i] == Minute(h[i].ts)
  {
    seq(|h|, i requires 0 <= i < |h| => Minute(h[i].ts))
  }

  lemma MinuteLength(a: int, b: int)
    requires Minute(a) == Minute(b)
    ensures b - a <= 118999
  {
  }

  /** In minute order and with a steady clock, no bucket expires while its minute lasts. */
  lemma EarlierInOrder(h: seq<Event>, skew: nat, i: nat)
    requires MinuteOrder(h) && Steady(h, skew) && 2 * skew + 59999 <= TTL && 0 < i < |h|
    ensures Earlier(h, i) == if Minute(h[i].ts) == Minute(h[i - 1].ts) then Earlier(h, i - 1) + 1 else 0
  {
    var m := Minute(h[i].ts);
    assert h[..i][..i - 1] == h[..i - 1];
    if Minute(h[i - 1].ts) != m {
      forall j | 0 <= j < i ensures Minute(h[..i][j].ts) != m { assert Minute(h[j].ts) <= Minute(h[i - 1].ts) <= m; }
      LiveNone(h[..i], m, h[i].now);
    } else {
      MinuteLength(h[i - 1].ts, h[i].ts);
      hide Minute;
      assert h[i].now <= h[i - 1].now + TTL;
    }
  }

  lemma OrderByMinute(h: seq<Event>, alpha: real, skew: nat)
    requires MinuteOrder(h) && Steady(h, skew) && 2 * skew + 59999 <= TTL
    ensures ByMinute(AllReturned(h, alpha), MinutesOf(h))
  {
    hide Returned, Earlier, MinuteOrder, Steady, Minute, Averaged, Run;
    var cs := AllReturned(h, alpha);
    forall i | 0 <= i < |h| ensures cs[i].curMin == Earlier(h, i) + 1 { ReturnedNext(h, alpha, i); }
    if h != [] { FirstEvent(h, alpha); }
    forall i | 0 < i < |h|
      ensures cs[i].curMin == if Minute(h[i].ts) == Minute(h[i - 1].ts) then cs[i - 1].curMin + 1 else 1
    {
      EarlierInOrder(h, skew, i);
    }
  }

  /** In minute order and with a steady clock, what is kept of a key is bounded by the bound and the spike
      limit for every minute. */
  lemma KeptInOrder(p: Policy, sev: Severity, h: seq<Event>, alpha: real, skew: nat, l: nat)
    requires Weight(alpha) && p.spikeFactor > 1.0 && !OnFloor(p, sev)
    requires MinuteOrder(h) && Steady(h, skew) && 2 * skew + 59999 <= TTL
    requires SpikeLimit(p.spikeFactor, Lag(alpha)) < l as real + 1.0
    ensures Kept(p, sev, AllReturned(h, alpha)) <= Bound(p, sev, |h|) + Each(Stretches(MinutesOf(h)), l)
  {
    hide Returned, Lag, SpikeLimit, Spiking, MinuteOrder, Steady, Gradual, Kept, Bound, Stretches, Spikes;
    var cs := AllReturned(h, alpha);
    OrderIsGradual(h);
    forall i | 0 <= i < |h| ensures cs[i].total == i + 1 { CountersOrdered(h[..i + 1], alpha); }
    forall i | 0 <= i < |h| && Spiking(p, cs[i]) ensures cs[i].curMin <= l { SpikeSmall(p, h, alpha, i); }
    OrderByMinute(h, alpha, skew);
    SpikesAtMost(p, cs, MinutesOf(h), l);
    KeptAtMost(p, sev, cs);
  }

  lemma SpikeSmall(p: Policy, h: seq<Event>, alpha: real, i: nat)
    requires Weight(alpha) && p.spikeFactor > 1.0 && Gradual(h) && i < |h|
    requires Spiking(p, Returned(h[..i + 1], alpha))
    ensures Returned(h[..i + 1], alpha).curMin as real <= SpikeLimit(p.spikeFactor, Lag(alpha))
  {
    hide Returned, Lag, SpikeLimit, Gradual;
    GradualLag(h, alpha, i);
    var c := Returned(h[..i + 1], alpha);
    SpikeArithmetic(c.curMin as real, c.ema, Lag(alpha), p.spikeFactor);
  }
}
