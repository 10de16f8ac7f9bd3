/** When an event spikes (sampler/pkg/service/service.go:125-130): in terms of the counts and of the average
    before it, and what the shipped policy makes of it. */
module SamplerSpikes {
  import opened SamplerAverages
  import opened SamplerLadders
  import opened SamplerStores

  // ---------------------------------------------------------------- exactly

  /** Only a minute with enough events, and with enough of them beside the average, spikes. */
  lemma SpikeIsLarge(p: Policy, sev: Severity, c: Counts)
    requires Evaluate(p, sev, c).reason == Spike
    ensures c.curMin >= p.minSpikePerMin && c.ema > 0.0 && c.curMin as real >= p.spikeFactor * c.ema
  {
  }

  /** The newest average on the right-hand side, solved for the one before. */
  lemma Rearranged(c: real, before: real, f: real, alpha: real)
    ensures c >= f * (alpha * c + (1.0 - alpha) * before) <==> c * (1.0 - f * alpha) >= f * (1.0 - alpha) * before
  {
    assert f * (alpha * c + (1.0 - alpha) * before) == f * (alpha * c) + f * ((1.0 - alpha) * before);
    assert f * (alpha * c) == c * (f * alpha) && f * ((1.0 - alpha) * before) == f * (1.0 - alpha) * before;
    assert c * (1.0 - f * alpha) == c - c * (f * alpha);
  }

  predicate Beats(c: real, f: real, ema: real) { c >= f * ema }

  /** The average before an event was low enough for a count to stand out. */
  predicate Low(before: real, c: real, f: real, alpha: real) {
    c * (1.0 - f * alpha) >= f * (1.0 - alpha) * before
  }

  lemma BeatsAverage(c: nat, before: real, f: real, alpha: real)
    ensures Beats(c as real, f, Averaged(c, before, alpha)) <==> Low(before, c as real, f, alpha)
  {
    Rearranged(c as real, before, f, alpha);
  }

  /** What is left of the ladder between the floor, novelty and the rest. */
  lemma SpikeRung(p: Policy, sev: Severity, c: Counts)
    requires !(sev in p.severityKeep && p.severityKeep[sev]) && (p.noveltyWindow <= 0 || c.total > 1)
    requires c.ema > 0.0 && c.curMin >= p.minSpikePerMin
    ensures Evaluate(p, sev, c).reason == Spike <==> Beats(c.curMin as real, p.spikeFactor, c.ema)
    ensures Evaluate(p, sev, c).reason == Spike ==> Evaluate(p, sev, c).action == Keep
  {
  }

  /** Over any run: off the floor and past novelty, an event in a minute with enough events is kept as a spike
      exactly if the average before it was low enough. */
  lemma SpikesExactly(p: Policy, sev: Severity, h: seq<Event>, alpha: real)
    requires Weight(alpha) && h != []
    requires !(sev in p.severityKeep && p.severityKeep[sev]) && (p.noveltyWindow <= 0 || |h| > 1)
    requires Returned(h, alpha).curMin >= p.minSpikePerMin
    ensures var v, c := Evaluate(p, sev, Returned(h, alpha)), Returned(h, alpha).curMin;
            (v.action == Keep && v.reason == Spike) <==>
            Low(Run(h[..|h| - 1], alpha).ema, c as real, p.spikeFactor, alpha)
  {
    var n := |h| - 1;
    var c, before := Returned(h, alpha), Run(h[..n], alpha).ema;
    assert h[..n + 1] == h;
    ReturnedNext(h, alpha, n);
    CountersOrdered(h, alpha);
    AverageNonNegative(h[..n], alpha);
    hide Returned, Run, Evaluate, Averaged, Low, Beats, Weight;
    PositiveAverage(c.curMin, before, alpha);
    BeatsAverage(c.curMin, before, p.spikeFactor, alpha);
    SpikeRung(p, sev, c);
  }

  lemma PositiveAverage(c: nat, before: real, alpha: real)
    requires Weight(alpha) && c >= 1 && before >= 0.0
    ensures Averaged(c, before, alpha) > 0.0
  {
    Positive(alpha, c as real - 1.0);
    Positive(1.0 - alpha, before);
    assert alpha * c as real == alpha * (c as real - 1.0) + alpha;
  }

  // -------------------------------------------------------------- the shipped policy

  /** After gradual events nothing spikes if the smallest spike is above the limit. */
  lemma GradualNeverSpikes(p: Policy, sev: Severity, h: seq<Event>, alpha: real)
    requires Weight(alpha) && p.spikeFactor > 1.0 && h != [] && Gradual(h)
    requires SpikeLimit(p.spikeFactor, Lag(alpha)) < p.minSpikePerMin as real
    ensures Evaluate(p, sev, Returned(h, alpha)).reason != Spike
  {
    hide Returned, Evaluate, Lag, SpikeLimit, Gradual;
    if Evaluate(p, sev, Returned(h, alpha)).reason == Spike {
      SpikesAreSmall(p, sev, h, alpha);
      SpikeIsLarge(p, sev, Returned(h, alpha));
      assert false;
    }
  }

  /** sampler/config.yaml:14-25 */
  const SHIPPED := Config(1440, 32, true, 500, 100, 10, 3.0, 100, 0, "sampler-redis-v1")

  function Power(x: real, n: nat): real { if n == 0 then 1.0 else x * Power(x, n - 1) }

  /** After so many events alone in their minutes, half of an average is gone. */
  ghost predicate HalfLife(alpha: real, n: nat) { Power(1.0 - alpha, n) == 0.5 }

  lemma {:induction false} PowerGrows(x: real, y: real, n: nat)
    requires 0.0 <= x <= y
    ensures 0.0 <= Power(x, n) <= Power(y, n)
  {
    if n > 0 {
      PowerGrows(x, y, n - 1);
      Scale(x, y, Power(x, n - 1));
      Scale(Power(x, n - 1), Power(y, n - 1), y);
    }
  }

  lemma PowerOfNineteenTwentieths()
    ensures Power(0.95, 10) > 0.5
  {
    PowerStep(0.95, 0);
    PowerStep(0.95, 1);
    PowerStep(0.95, 2);
    PowerStep(0.95, 3);
    PowerStep(0.95, 4);
    PowerStep(0.95, 5);
    PowerStep(0.95, 6);
    PowerStep(0.95, 7);
    PowerStep(0.95, 8);
    PowerStep(0.95, 9);
    hide Power;
  }

  lemma PowerStep(x: real, n: nat)
    ensures Power(x, n + 1) == x * Power(x, n) && Power(x, 0) == 1.0
  {
  }

  lemma TenMinutesWeight(alpha: real)
    requires Weight(alpha) && HalfLife(alpha, 10)
    ensures alpha > 0.05
  {
    if alpha <= 0.05 {
      PowerGrows(0.95, 1.0 - alpha, 10);
      PowerOfNineteenTwentieths();
    }
  }

  lemma LagBelow(alpha: real)
    requires 0.05 < alpha <= 1.0
    ensures Lag(alpha) < 19.0
  {
    assert Lag(alpha) * alpha == 1.0 - alpha by { Quotient(1.0 - alpha, alpha); }
    hide Lag;
    if Lag(alpha) >= 19.0 { Scale(19.0, Lag(alpha), alpha); }
  }

  /** With the shipped numbers the spike rung is dead as long as events are gradual, in minute order for one. */
  lemma ShippedNeverSpikes(sev: Severity, h: seq<Event>, alpha: real)
    requires Weight(alpha) && HalfLife(alpha, 10) && h != [] && Gradual(h)
    ensures Evaluate(New(SHIPPED), sev, Returned(h, alpha)).reason != Spike
  {
    TenMinutesWeight(alpha);
    LagBelow(alpha);
    hide Lag;
    assert SpikeLimit(3.0, Lag(alpha)) < 100.0;
    assert New(SHIPPED).spikeFactor == 3.0 && New(SHIPPED).minSpikePerMin == 100;
    GradualNeverSpikes(New(SHIPPED), sev, h, alpha);
  }

  // -------------------------------------------------------------- a spike

  /** Two events of one minute. */
  function Burst(): seq<Event> { [Event(0, 0, AtOnce(0)), Event(0, 0, AtOnce(0))] }

  /** With small numbers the second one spikes. */
  lemma BurstSpikes()
    ensures var p := New(SHIPPED.(spikeFactor := 2.0, minSpikePerMin := 2));
            Evaluate(p, Info, Returned(Burst(), 0.25)) == Verdict(Keep, Spike, 1, CurrentAndAverage(2, 0.6875))
  {
    var h := Burst();
    BurstCounts();
    hide Returned;
  }

  lemma BurstCounts()
    ensures var c := Returned(Burst(), 0.25); c.curMin == 2 && c.ema == 0.6875 && c.total == 2
  {
    var h := Burst();
    assert h[..1] == [h[0]] && h[..2] == h && h[..0] == [];
    ReturnedNext(h, 0.25, 0);
    ReturnedNext(h, 0.25, 1);
    CountersOrdered(h, 0.25);
    assert Earlier(h, 0) == 0;
    assert Minute(0) == 0;
    assert Earlier(h, 1) == 1 by { hide Minute; }
    hide Returned, Run, Earlier;
  }
}
