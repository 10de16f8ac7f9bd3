/** How far the sampler's moving average lags behind the count of the current minute
    (sampler/pkg/redis/store.go:62-100). */
module SamplerAverages {
  import opened SamplerStores

  ghost predicate MinuteOrder(h: seq<Event>) {
    forall i, j | 0 <= i < j < |h| :: Minute(h[i].ts) <= Minute(h[j].ts)
  }

  predicate Weight(alpha: real) { 0.0 < alpha <= 1.0 }

  /** The largest lag, in events per minute. */
  function Lag(alpha: real): real
    requires Weight(alpha)
  {
    (1.0 - alpha) / alpha
  }

  // -------------------------------------------------------------- arithmetic

  lemma Scale(x: real, y: real, z: real)
    requires x <= y && z >= 0.0
    ensures z * x <= z * y
  {
  }

  lemma Quotient(x: real, a: real)
    requires a > 0.0 && x >= 0.0
    ensures x / a >= 0.0 && a * (x / a) == x
  {
  }

  lemma Complement(q: real, alpha: real)
    ensures (1.0 - alpha) * q == q - alpha * q
  {
  }

  lemma Positive(x: real, y: real)
    requires x >= 0.0 && y >= 0.0
    ensures x * y >= 0.0
  {
  }

  lemma LagTimes(alpha: real)
    requires Weight(alpha)
    ensures alpha * Lag(alpha) == 1.0 - alpha && Lag(alpha) >= 1.0 - alpha >= 0.0
  {
    Quotient(1.0 - alpha, alpha);
    Positive(1.0 - alpha, Lag(alpha));
    Complement(Lag(alpha), alpha);
  }

  /** The average takes at least its weight of the newest count. */
  lemma AveragedAtLeast(c: nat, ema: real, alpha: real)
    requires Weight(alpha) && ema >= 0.0
    ensures Averaged(c, ema, alpha) >= alpha * c as real >= 0.0
  {
    Scale(0.0, ema, 1.0 - alpha);
    Scale(0.0, c as real, alpha);
  }

  lemma Expand(c: real, q: real, alpha: real)
    requires alpha * q == 1.0 - alpha
    ensures alpha * (c + 1.0) + (1.0 - alpha) * (c - q) == c + 1.0 - q
  {
    assert alpha * (c + 1.0) == alpha * c + alpha;
    assert (1.0 - alpha) * (c - q) == (c - q) - alpha * (c - q);
    assert alpha * (c - q) == alpha * c - alpha * q;
  }

  lemma LagKept(c: real, d: real, ema: real, q: real, alpha: real)
    requires 0.0 < alpha <= 1.0 && alpha * q == 1.0 - alpha && ema >= c - q && d == c + 1.0
    ensures alpha * d + (1.0 - alpha) * ema >= d - q
  {
    Scale(c - q, ema, 1.0 - alpha);
    Expand(c, q, alpha);
  }

  /** One step of the average, when the count of the minute grew by one or started afresh. */
  lemma LagStep(c: nat, ema: real, d: nat, alpha: real)
    requires Weight(alpha) && ema >= 0.0 && ema >= c as real - Lag(alpha)
    requires d == 1 || d == c + 1
    ensures Averaged(d, ema, alpha) >= d as real - Lag(alpha)
  {
    var q := Lag(alpha);
    LagTimes(alpha);
    if d == c + 1 {
      hide Lag;
      LagKept(c as real, d as real, ema, q, alpha);
    } else {
      AveragedAtLeast(d, ema, alpha);
      hide Lag, Averaged;
    }
  }

  // -------------------------------------------------------------------- runs

  lemma {:induction false} AverageNonNegative(h: seq<Event>, alpha: real)
    requires Weight(alpha)
    ensures Run(h, alpha).ema >= 0.0
  {
    if h != [] {
      var g, e := h[..|h| - 1], h[|h| - 1];
      AverageNonNegative(g, alpha);
      var k := Run(g, alpha);
      AveragedAtLeast(Value(Bumped(k, e.now, e.ts).buckets, Minute(e.ts), e.now), k.ema, alpha);
      hide Averaged;
    }
  }

  /** In any order, the average is at least its weight of the current count. */
  lemma AverageFollows(h: seq<Event>, alpha: real)
    requires Weight(alpha) && h != []
    ensures var c := Returned(h, alpha); c.ema >= alpha * c.curMin as real
  {
    var g, e := h[..|h| - 1], h[|h| - 1];
    AverageNonNegative(g, alpha);
    var k := Run(g, alpha);
    AveragedAtLeast(Value(Bumped(k, e.now, e.ts).buckets, Minute(e.ts), e.now), k.ema, alpha);
    hide Averaged;
  }

  function Mix(x: real, y: real, alpha: real): real { alpha * x + (1.0 - alpha) * y }

  lemma MixAtMost(x: real, y: real, alpha: real, bound: real)
    requires Weight(alpha) && x <= bound && y <= bound
    ensures Mix(x, y, alpha) <= bound
  {
    Positive(alpha, bound - x);
    Positive(1.0 - alpha, bound - y);
  }

  lemma AveragedIsMix(c: nat, ema: real, alpha: real)
    ensures Averaged(c, ema, alpha) == Mix(c as real, ema, alpha)
  {
  }

  lemma AveragedAtMost(c: nat, ema: real, alpha: real, bound: real)
    requires Weight(alpha) && c as real <= bound && ema <= bound
    ensures Averaged(c, ema, alpha) <= bound
  {
    hide Averaged, Mix;
    AveragedIsMix(c, ema, alpha);
    MixAtMost(c as real, ema, alpha, bound);
  }

  ghost predicate CountAtMost(h: seq<Event>, i: nat, alpha: real, bound: real)
    requires i < |h|
  {
    Returned(h[..i + 1], alpha).curMin as real <= bound
  }

  /** In any order, the average is never above the largest count so far. */
  lemma {:induction false} AverageBelow(h: seq<Event>, alpha: real, bound: real)
    requires Weight(alpha) && bound >= 0.0
    requires forall i | 0 <= i < |h| :: CountAtMost(h, i, alpha, bound)
    ensures Run(h, alpha).ema <= bound
  {
    if h != [] {
      var g, e := h[..|h| - 1], h[|h| - 1];
      forall i | 0 <= i < |g| ensures CountAtMost(g, i, alpha, bound) {
        assert g[..i + 1] == h[..i + 1] && CountAtMost(h, i, alpha, bound);
      }
      AverageBelow(g, alpha, bound);
      assert h[..|g| + 1] == h && CountAtMost(h, |g|, alpha, bound);
      var k := Run(g, alpha);
      AveragedAtMost(Value(Bumped(k, e.now, e.ts).buckets, Minute(e.ts), e.now), k.ema, alpha, bound);
      hide Averaged;
    }
  }

  // ------------------------------------------------------------------- lag

  ghost predicate LagHolds(h: seq<Event>, alpha: real, i: nat)
    requires Weight(alpha) && i < |h|
  {
    var c := Returned(h[..i + 1], alpha); c.ema >= c.curMin as real - Lag(alpha)
  }

  /** No event's bucket has got ahead of the one before by more than one. */
  ghost predicate Gradual(h: seq<Event>) {
    forall i | 0 < i < |h| :: Earlier(h, i) <= Earlier(h, i - 1) + 1
  }

  /** What event i returns, in terms of what came before. */
  lemma ReturnedNext(h: seq<Event>, alpha: real, i: nat)
    requires i < |h|
    ensures var c := Returned(h[..i + 1], alpha);
            c.curMin == Earlier(h, i) + 1 && c.ema == Averaged(c.curMin, Run(h[..i], alpha).ema, alpha)
    ensures Run(h[..i + 1], alpha).ema == Returned(h[..i + 1], alpha).ema
  {
    var e := h[i];
    assert h[..i + 1][..i] == h[..i];
    ValueIsLive(h[..i], alpha, Minute(e.ts), e.now);
    hide Averaged, Minute, Live, Window;
  }

  lemma {:induction false} GradualLag(h: seq<Event>, alpha: real, i: nat)
    requires Weight(alpha) && Gradual(h) && i < |h|
    ensures LagHolds(h, alpha, i)
  {
    hide Run, Returned, Lag, Averaged, Earlier;
    ReturnedNext(h, alpha, i);
    LagTimes(alpha);
    AverageNonNegative(h[..i], alpha);
    if i == 0 {
      FirstEvent(h, alpha);
      LagStep(0, Run(h[..0], alpha).ema, 1, alpha);
    } else {
      GradualLag(h, alpha, i - 1);
      ReturnedNext(h, alpha, i - 1);
      LagStep(Earlier(h, i), Run(h[..i], alpha).ema, Earlier(h, i) + 1, alpha);
    }
  }

  lemma FirstEvent(h: seq<Event>, alpha: real)
    requires h != []
    ensures Earlier(h, 0) == 0 && Run(h[..0], alpha).ema == 0.0
  {
    assert h[..0] == [];
  }

  function Times(x: real, y: real): real { x * y }

  lemma TimesLess(z: real, x: real, y: real)
    requires x <= y && z >= 0.0
    ensures Times(z, x) <= Times(z, y)
  {
    Scale(x, y, z);
  }

  lemma TimesNegative(z: real, x: real, y: real)
    ensures Times(z, x - y) == -Times(z, y - x)
  {
  }

  /** A weight so close to one that a jump of two shows. */
  function Heavy(n: nat): real { 1.0 - Rest(n) }

  function Rest(n: nat): real { 1.0 / (2.0 * n as real + 4.0) }

  lemma RestTimes(n: nat)
    ensures 0.0 < Rest(n) <= 0.25 && Times(Rest(n), n as real) < 0.5 && Weight(Heavy(n)) && Heavy(n) >= 0.75
  {
    hide Times;
    RestInverse(2.0 * n as real + 4.0, Rest(n));
    RestSmall(n as real, Rest(n));
  }

  lemma RestInverse(x: real, r: real)
    requires x > 0.0 && r == 1.0 / x
    ensures Times(r, x) == 1.0
  {
    Quotient(1.0, x);
  }

  lemma RestSmall(n: real, r: real)
    requires n >= 0.0 && Times(r, 2.0 * n + 4.0) == 1.0
    ensures 0.0 < r <= 0.25 && Times(r, n) < 0.5
  {
    if r <= 0.0 { NotPositive(r, 2.0 * n + 4.0); }
    Positive(n, r);
    assert r * (2.0 * n + 4.0) == 2.0 * (n * r) + 4.0 * r;
  }

  lemma NotPositive(x: real, y: real)
    requires x <= 0.0 && y >= 0.0
    ensures x * y <= 0.0
  {
  }

  /** How far a mix stays behind its first part. */
  lemma MixBehind(x: real, y: real, r: real)
    ensures x - Mix(x, y, 1.0 - r) == Times(r, x - y)
  {
  }

  lemma JumpShows(c: real, d: real, e: real, n: nat)
    requires 0.0 <= c && c + 2.0 <= d && e <= n as real
    ensures Weight(Heavy(n)) && Mix(d, Mix(c, e, Heavy(n)), Heavy(n)) < d - Lag(Heavy(n))
  {
    hide Mix, Rest, Lag, Times;
    RestTimes(n);
    var r, f := Rest(n), Mix(c, e, Heavy(n));
    MixBehind(c, e, r);
    MixBehind(d, f, r);
    JumpArithmetic(c, d, e, f, n as real, r);
    LagOfHeavy(Heavy(n), r);
  }

  lemma LagOfHeavy(a: real, r: real)
    requires Weight(a) && a >= 0.75 && a == 1.0 - r && r >= 0.0
    ensures Lag(a) <= 1.4 * r
  {
    LagTimes(a);
    var q := Lag(a);
    hide Lag;
    Positive(a - 0.75, q);
    assert (a - 0.75) * q == a * q - 0.75 * q;
  }

  lemma JumpArithmetic(c: real, d: real, e: real, f: real, n: real, r: real)
    requires 0.0 <= c && c + 2.0 <= d && e <= n && 0.0 < r <= 0.25 && Times(r, n) < 0.5
    requires c - f == Times(r, c - e)
    ensures Times(r, d - f) > 1.4 * r
  {
    hide Times;
    TimesLess(r, e - c, n);
    TimesNegative(r, c, e);
    TimesLess(r, 1.5, d - f);
    TimesConstant(r);
  }

  lemma TimesConstant(r: real)
    ensures Times(r, 1.5) == 1.5 * r
  {
  }

  lemma JumpBreaks(h: seq<Event>, i: nat)
    requires 0 < i < |h| && Earlier(h, i) > Earlier(h, i - 1) + 1
    ensures Weight(Heavy(|h|)) && !LagHolds(h, Heavy(|h|), i)
  {
    hide Run, Returned, Lag, Earlier, Averaged, Mix, Heavy;
    RestTimes(|h|);
    var n, a := |h|, Heavy(|h|);
    ReturnedNext(h, a, i);
    ReturnedNext(h, a, i - 1);
    var c, d, e := Earlier(h, i - 1) + 1, Earlier(h, i) + 1, Run(h[..i - 1], a).ema;
    AverageAtMostAll(h[..i - 1], a, n as real);
    AveragedIsMix(c, e, a);
    AveragedIsMix(d, Averaged(c, e, a), a);
    JumpShows(c as real, d as real, e, n);
  }

  lemma AverageAtMostAll(h: seq<Event>, alpha: real, bound: real)
    requires Weight(alpha) && |h| as real <= bound
    ensures Run(h, alpha).ema <= bound
  {
    hide Run, Returned;
    forall i | 0 <= i < |h| ensures CountAtMost(h, i, alpha, bound) { CountersOrdered(h[..i + 1], alpha); }
    AverageBelow(h, alpha, bound);
  }

  ghost predicate LagAlways(h: seq<Event>) {
    forall alpha, i | Weight(alpha) && 0 <= i < |h| :: LagHolds(h, alpha, i)
  }

  /** For all weights the average stays within the lag after every event, if and only if no event's bucket
      is ahead of the one before by more than one. */
  lemma LagExactly(h: seq<Event>)
    ensures LagAlways(h) <==> Gradual(h)
  {
    hide Earlier, LagHolds;
    if Gradual(h) {
      forall alpha, i | Weight(alpha) && 0 <= i < |h| ensures LagHolds(h, alpha, i) { GradualLag(h, alpha, i); }
    } else {
      var i := Jump(h);
      JumpBreaks(h, i);
    }
  }

  lemma Jump(h: seq<Event>) returns (i: nat)
    requires !Gradual(h)
    ensures 0 < i < |h| && Earlier(h, i) > Earlier(h, i - 1) + 1
  {
    i :| 0 < i < |h| && Earlier(h, i) > Earlier(h, i - 1) + 1;
  }

  lemma {:induction false} LiveNone(h: seq<Event>, m: int, now: int)
    requires forall i | 0 <= i < |h| :: Minute(h[i].ts) != m
    ensures Live(h, m, now) == 0
  {
    if h != [] { LiveNone(h[..|h| - 1], m, now); }
  }

  /** Events in minute order are gradual. */
  lemma OrderIsGradual(h: seq<Event>)
    requires MinuteOrder(h)
    ensures Gradual(h)
  {
    forall i | 0 < i < |h| ensures Earlier(h, i) <= Earlier(h, i - 1) + 1 {
      var m := Minute(h[i].ts);
      assert h[..i][..i - 1] == h[..i - 1];
      if Minute(h[i - 1].ts) != m {
        forall j | 0 <= j < i ensures Minute(h[..i][j].ts) != m { assert Minute(h[j].ts) <= Minute(h[i - 1].ts) <= m; }
        LiveNone(h[..i], m, h[i].now);
      }
    }
  }

  /** After gradual events, the average is never more than the lag behind. */
  lemma AverageLag(h: seq<Event>, alpha: real)
    requires Weight(alpha) && h != [] && Gradual(h)
    ensures var c := Returned(h, alpha); c.ema >= c.curMin as real - Lag(alpha)
  {
    hide Returned, Gradual;
    GradualLag(h, alpha, |h| - 1);
    assert h[..|h|] == h;
  }

  /** Three events in one minute, one in the next, and a late fourth. */
  function Late(): seq<Event> {
    [Event(0, 0, AtOnce(0)), Event(0, 0, AtOnce(0)), Event(0, 0, AtOnce(0)), Event(60000, 60000, AtOnce(60000)),
     Event(60000, 0, AtOnce(60000))]
  }

  lemma LateRun(n: nat)
    requires 0 < n <= 5
    ensures var h := Late();
            Run(h[..n], 0.5) == Touched(Run(h[..n - 1], 0.5), h[n - 1].now, h[n - 1].ts, 0.5)
  {
    assert Late()[..n][..n - 1] == Late()[..n - 1];
  }

  lemma LateThree()
    ensures var k := Run(Late()[..3], 0.5); k.buckets == map[0 := Bucket(3, TTL)] && k.ema == 2.125
  {
    var h := Late();
    LateRun(1);
    LateRun(2);
    LateRun(3);
    assert h[..0] == [] && Minute(0) == 0;
    hide Minute, Run;
    var k1, k2 := Run(h[..1], 0.5), Run(h[..2], 0.5);
    assert k1.buckets == map[0 := Bucket(1, TTL)] && k1.ema == 0.5;
    assert k2.buckets == map[0 := Bucket(2, TTL)] && k2.ema == 1.25;
  }

  lemma LateFour()
    ensures var k := Run(Late()[..4], 0.5);
            k.buckets == map[0 := Bucket(3, TTL), 1 := Bucket(1, 60000 + TTL)] && k.ema == 1.5625
  {
    LateThree();
    LateRun(4);
    assert Minute(60000) == 1;
    hide Minute, Run;
  }

  /** Out of minute order, the average can be further behind. */
  lemma LateLags()
    ensures var c := Returned(Late(), 0.5); c.ema < c.curMin as real - Lag(0.5)
  {
    var h := Late();
    LateFour();
    LateRun(5);
    assert h[..5] == h && Minute(0) == 0;
    hide Minute, Run, Window;
    assert Run(h, 0.5).ema == 2.78125;
  }
}
