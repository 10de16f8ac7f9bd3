/** What a batch answers (sampler/pkg/service/service.go:36-103): the ladder's verdicts and the counted events,
    and the ladder's laws for the decisions on one key. */
module SamplerDecisions {
  import opened GoStrings
  import opened Options
  import opened SamplerLadders
  import opened SamplerServices
  import opened SamplerStores

  /** All that a batch is given besides its items. */
  datatype World = World(now: int, clock: nat -> Clock, reply: nat -> Reply)

  function Answer(p: Policy, alpha: real, keys: map<string, Key>, items: seq<Option<Item>>, w: World): Outcome {
    DecideAll(p, alpha, keys, items, w.now, w.clock, w.reply)
  }

  /** The decision is what the ladder says of these counters. */
  ghost predicate Says(p: Policy, it: Item, c: Counts, d: Decision) {
    var v := Evaluate(p, it.severity, c);
    && d.recordIndex == it.recordIndex && d.policyVersion == p.version
    && d.action == v.action && d.reason == v.reason && d.sampleRate == v.sampleRate && d.note == v.note
    && d.count10m == c.win10m && d.count1h == c.win1h && d.count24h == c.win24h
  }

  /** The events of the item's key up to item i, after those of h. */
  function Upto(h: seq<Event>, items: seq<Option<Item>>, w: World, i: nat): seq<Event>
    requires i < |items| && items[i].Some?
  {
    h + EventsOf(Base(items[i].value), items[..i + 1], w.now, w.clock)
  }

  /** On a batch that succeeds, each decision is what the ladder says of the run of its key so far. */
  lemma DecisionSays(p: Policy, alpha: real, keys: map<string, Key>, items: seq<Option<Item>>, w: World,
                     h: seq<Event>, i: nat)
    requires i < |items| && Answer(p, alpha, keys, items, w).result.Decided?
    requires items[i].Some? && KeyOf(keys, Base(items[i].value)) == Run(h, alpha)
    ensures var ds := Answer(p, alpha, keys, items, w).result.decisions;
            && i < |ds| && Upto(h, items, w, i) != []
            && Says(p, items[i].value, Returned(Upto(h, items, w, i), alpha), ds[i])
  {
    DecisionsFollowRuns(p, alpha, keys, items, w.now, w.clock, w.reply, h, i);
    hide Run, Returned, EventsOf, DecideAll, Evaluate, Base;
  }

  /** With a steady clock and short delays, its window counts are those of the events. */
  lemma DecisionCounts(p: Policy, alpha: real, keys: map<string, Key>, items: seq<Option<Item>>, w: World,
                       h: seq<Event>, i: nat, skew: nat, delay: nat)
    requires i < |items| && Answer(p, alpha, keys, items, w).result.Decided?
    requires items[i].Some? && KeyOf(keys, Base(items[i].value)) == Run(h, alpha)
    requires Steady(Upto(h, items, w, i), skew) && Enough(skew, delay) && SoonRead(w.clock(i), delay)
    ensures i < |Answer(p, alpha, keys, items, w).result.decisions|
    ensures var d, g := Answer(p, alpha, keys, items, w).result.decisions[i], Upto(h, items, w, i);
            var m := Minute(TimeOf(items[i].value, w.now));
            && d.count10m == Count(g, m - 10, m) && d.count1h == Count(g, m - 60, m)
            && d.count24h == Count(g, m - 1440, m)
  {
    DecisionSays(p, alpha, keys, items, w, h, i);
    hide Answer, KeyOf, Run, Base, Says, Upto, Count, Minute, TimeOf, Steady, Returned;
    var g := Upto(h, items, w, i);
    RunCounts(h, items, w, i, alpha, skew, delay);
    SaysCounts(p, items[i].value, Returned(g, alpha), Answer(p, alpha, keys, items, w).result.decisions[i]);
  }

  lemma RunCounts(h: seq<Event>, items: seq<Option<Item>>, w: World, i: nat, alpha: real, skew: nat, delay: nat)
    requires i < |items| && items[i].Some?
    requires Steady(Upto(h, items, w, i), skew) && Enough(skew, delay) && SoonRead(w.clock(i), delay)
    ensures Upto(h, items, w, i) != []
    ensures var g, m := Upto(h, items, w, i), Minute(TimeOf(items[i].value, w.now));
            var c := Returned(g, alpha);
            c.win10m == Count(g, m - 10, m) && c.win1h == Count(g, m - 60, m) && c.win24h == Count(g, m - 1440, m)
  {
    LastEvent(h, items, w, i);
    hide Run, Upto, Count, Minute, TimeOf, Steady, Returned;
    CountersExact(Upto(h, items, w, i), alpha, skew, delay);
  }

  lemma SaysCounts(p: Policy, it: Item, c: Counts, d: Decision)
    requires Says(p, it, c, d)
    ensures d.count10m == c.win10m && d.count1h == c.win1h && d.count24h == c.win24h
  {
  }

  /** The windows are summed soon after the event was counted. */
  predicate SoonRead(c: Clock, delay: nat) {
    && c.now <= c.later.at10 <= c.now + delay && c.now <= c.later.at60 <= c.now + delay
    && c.now <= c.later.at1440 <= c.now + delay
  }

  lemma LastEvent(h: seq<Event>, items: seq<Option<Item>>, w: World, i: nat)
    requires i < |items| && items[i].Some?
    ensures var g := Upto(h, items, w, i);
            g != [] && g[|g| - 1] == Event(w.clock(i).now, TimeOf(items[i].value, w.now), w.clock(i).later)
  {
    var js, base := items[..i + 1], Base(items[i].value);
    EventsLast(base, js, w.now, w.clock, h);
    hide Base, TimeOf, EventsOf;
    assert js[i] == items[i];
  }

  // ------------------------------------------------------------- any key, any state

  /** Whatever Redis held before, a decision is what the ladder says of some counters. */
  lemma {:induction false} DecisionOnSome(p: Policy, alpha: real, keys: map<string, Key>, items: seq<Option<Item>>,
                                          w: World, i: nat) returns (c: Counts)
    requires i < |items| && Answer(p, alpha, keys, items, w).result.Decided?
    ensures var ds := Answer(p, alpha, keys, items, w).result.decisions;
            i < |ds| && items[i].Some? && Says(p, items[i].value, c, ds[i])
    decreases |items|
  {
    var n := |items| - 1;
    hide DecideAll, DecideNext, Evaluate, Base, TimeOf, CountsOf;
    DecideLast(p, alpha, keys, items, w.now, w.clock, w.reply);
    var before := DecideAll(p, alpha, keys, items[..n], w.now, w.clock, w.reply);
    Aligned(p, alpha, keys, items[..n], w.now, w.clock, w.reply);
    NextDecides(p, alpha, before, items[n], w.now, w.clock(n), w.reply(n));
    if i < n {
      c := DecisionOnSome(p, alpha, keys, items[..n], w, i);
    } else {
      var next := DecideNext(p, alpha, before, items[n], w.now, w.clock(n), w.reply(n));
      var it := items[n].value;
      c := CountsOf(KeyOf(next.keys, Base(it)), w.clock(n).now, TimeOf(it, w.now), w.clock(n).later);
    }
  }

  /** Under a configured policy, every error and every fatal of a batch is kept, whatever Redis holds. */
  lemma SevereItemsKept(c: Config, alpha: real, keys: map<string, Key>, items: seq<Option<Item>>, w: World, i: nat)
    requires i < |items| && Answer(New(c), alpha, keys, items, w).result.Decided?
    requires items[i].Some? && items[i].value.severity in {Error, Fatal}
    ensures var ds := Answer(New(c), alpha, keys, items, w).result.decisions;
            i < |ds| && ds[i].action == Keep && ds[i].reason == Severe && ds[i].sampleRate == 1
  {
    hide DecideAll, Evaluate;
    var counts := DecisionOnSome(New(c), alpha, keys, items, w, i);
    SevereKept(c, items[i].value.severity, counts);
  }

  /** What the first item that fails leaves behind: nothing, or one more event under its key, whose average stays;
      all later items leave nothing. */
  lemma FailureLeaves(p: Policy, alpha: real, keys: map<string, Key>, items: seq<Option<Item>>, w: World, i: nat)
    requires i < |items| && Answer(p, alpha, keys, items[..i], w).result.Decided?
    ensures var before, after := Answer(p, alpha, keys, items[..i], w).keys, Answer(p, alpha, keys, items, w);
            && (items[i].None? ==> after == Outcome(before, NilItem))
            && (items[i].Some? && w.reply(i) == LostBefore ==> after == Outcome(before, RedisError))
            && (items[i].Some? && w.reply(i) == LostAfter ==>
                  var base := Base(items[i].value); var k := KeyOf(before, base);
                  && after.result == RedisError && base in after.keys
                  && after.keys - {base} == before - {base}
                  && after.keys[base].total == k.total + 1 && after.keys[base].ema == k.ema)
  {
    var before := Answer(p, alpha, keys, items[..i], w);
    hide DecideAll, DecideNext, Base, KeyOf;
    FailsAt(p, alpha, keys, items, w, i);
    if items[i].Some? && w.reply(i) == LostAfter {
      BumpCounts(KeyOf(before.keys, Base(items[i].value)), w.clock(i).now, TimeOf(items[i].value, w.now));
    }
    hide Bumped, TimeOf, Answer;
  }

  lemma FailsAt(p: Policy, alpha: real, keys: map<string, Key>, items: seq<Option<Item>>, w: World, i: nat)
    requires i < |items| && Answer(p, alpha, keys, items[..i], w).result.Decided?
    ensures var before, after := Answer(p, alpha, keys, items[..i], w).keys, Answer(p, alpha, keys, items, w);
            && (items[i].None? ==> after == Outcome(before, NilItem))
            && (items[i].Some? && w.reply(i) == LostBefore ==> after == Outcome(before, RedisError))
            && (items[i].Some? && w.reply(i) == LostAfter ==>
                  var base := Base(items[i].value);
                  var k := Bumped(KeyOf(before, base), w.clock(i).now, TimeOf(items[i].value, w.now));
                  after == Outcome(before[base := k], RedisError))
  {
    hide Base, Touched, Evaluate, CountsOf, TimeOf, KeyOf, Bumped;
    assert items[..i + 1][..i] == items[..i];
    assert DecideAll(p, alpha, keys, items[..i + 1], w.now, w.clock, w.reply)
        == DecideNext(p, alpha, Answer(p, alpha, keys, items[..i], w), items[i], w.now, w.clock(i), w.reply(i));
    hide DecideAll;
    if items[i].None? || w.reply(i) != Answered {
      StaysFailed(p, alpha, keys, items, w.now, w.clock, w.reply, i + 1);
    }
  }

  lemma BumpCounts(k: Key, now: int, ts: int)
    ensures Bumped(k, now, ts).total == k.total + 1 && Bumped(k, now, ts).ema == k.ema
  {
    hide Minute, Value;
  }

  // ---------------------------------------------------------------- one key

  /** The decisions on the items of one key. */
  function DecisionsOn(base: string, items: seq<Option<Item>>, ds: seq<Decision>): seq<Decision>
    requires |ds| == |items|
  {
    if items == [] then []
    else
      var n := |items| - 1;
      DecisionsOn(base, items[..n], ds[..n])
      + if items[n].Some? && Base(items[n].value) == base then [ds[n]] else []
  }

  lemma {:induction false} JoinLast(parts: seq<string>, sep: string)
    requires parts != [] && |parts[|parts| - 1]| == 1
    ensures var b := Join(parts, sep); b != "" && b[|b| - 1] == parts[|parts| - 1][0]
  {
    if |parts| > 1 { JoinLast(parts[1..], sep); }
  }

  /** The last character of a key tells the severity, so a key has items of one severity only. */
  lemma OneSeverity(a: Item, b: Item)
    requires Base(a) == Base(b)
    ensures a.severity == b.severity
  {
    BaseEnds(a);
    BaseEnds(b);
    hide Base;
    assert Digit(a.severity) == Digit(b.severity);
    DigitsDiffer(a.severity, b.severity);
  }

  lemma BaseEnds(it: Item)
    ensures var b := Base(it); b != "" && [b[|b| - 1]] == Digit(it.severity)
  {
    hide Nz, TrimSpace, Join;
    var parts := SamplerServices.KeyParts(Nz(it.tenantId, "default"), it.templateId, LabelOf(it, "service"),
      LabelOf(it, "env"), it.severity);
    assert parts[|parts| - 1] == Digit(it.severity);
    JoinLast(parts, ":");
  }

  /** The j-th decision on a key is the ladder's on the run of the key with j + 1 events of the batch. */
  ghost predicate Follows(p: Policy, sev: Severity, alpha: real, h: seq<Event>, es: seq<Event>, ks: seq<Decision>) {
    && |ks| == |es|
    && forall j | 0 <= j < |ks| :: ks[j].action == Evaluate(p, sev, Returned(h + es[..j + 1], alpha)).action
  }

  lemma FollowsMore(p: Policy, sev: Severity, alpha: real, h: seq<Event>, es: seq<Event>, ks: seq<Decision>,
                    e: Event, d: Decision)
    requires Follows(p, sev, alpha, h, es, ks)
    requires d.action == Evaluate(p, sev, Returned(h + (es + [e]), alpha)).action
    ensures Follows(p, sev, alpha, h, es + [e], ks + [d])
  {
    hide Evaluate, Returned;
    var fs, ls := es + [e], ks + [d];
    forall j | 0 <= j < |ls| ensures ls[j].action == Evaluate(p, sev, Returned(h + fs[..j + 1], alpha)).action {
      if j < |ks| { assert fs[..j + 1] == es[..j + 1]; } else { assert fs[..j + 1] == fs; }
    }
  }

  lemma {:induction false} KeyFollows(p: Policy, alpha: real, keys: map<string, Key>, items: seq<Option<Item>>,
                                      w: World, h: seq<Event>, it: Item)
    requires Answer(p, alpha, keys, items, w).result.Decided? && KeyOf(keys, Base(it)) == Run(h, alpha)
    ensures var ds := Answer(p, alpha, keys, items, w).result.decisions;
            && |ds| == |items|
            && Follows(p, it.severity, alpha, h, EventsOf(Base(it), items, w.now, w.clock),
                       DecisionsOn(Base(it), items, ds))
  {
    Aligned(p, alpha, keys, items, w.now, w.clock, w.reply);
    if items != [] {
      var n := |items| - 1;
      hide DecideAll, DecideNext, Evaluate, Base, TimeOf, CountsOf, Run, Returned, Follows, Says;
      DecideLast(p, alpha, keys, items, w.now, w.clock, w.reply);
      var before := DecideAll(p, alpha, keys, items[..n], w.now, w.clock, w.reply);
      NextDecides(p, alpha, before, items[n], w.now, w.clock(n), w.reply(n));
      KeyFollows(p, alpha, keys, items[..n], w, h, it);
      KeyNext(p, alpha, keys, items, w, h, it, before.result.decisions);
    }
  }

  lemma KeyNext(p: Policy, alpha: real, keys: map<string, Key>, items: seq<Option<Item>>, w: World, h: seq<Event>,
                it: Item, before: seq<Decision>)
    requires items != [] && items[|items| - 1].Some? && KeyOf(keys, Base(it)) == Run(h, alpha)
    requires Answer(p, alpha, keys, items, w).result.Decided?
    requires |Answer(p, alpha, keys, items, w).result.decisions| == |items| == |before| + 1
    requires before == Answer(p, alpha, keys, items, w).result.decisions[..|before|]
    requires Follows(p, it.severity, alpha, h, EventsOf(Base(it), items[..|before|], w.now, w.clock),
                     DecisionsOn(Base(it), items[..|before|], before))
    ensures Follows(p, it.severity, alpha, h, EventsOf(Base(it), items, w.now, w.clock),
                    DecisionsOn(Base(it), items, Answer(p, alpha, keys, items, w).result.decisions))
  {
    var n := |items| - 1;
    var ds, last := Answer(p, alpha, keys, items, w).result.decisions, items[n].value;
    var es, ks := EventsOf(Base(it), items[..n], w.now, w.clock), DecisionsOn(Base(it), items[..n], ds[..n]);
    hide DecideAll, Evaluate, Base, TimeOf, Run, Returned, Follows;
    if Base(last) == Base(it) {
      OneSeverity(last, it);
      DecisionSays(p, alpha, keys, items, w, h, n);
      assert items[..n + 1] == items;
      var e := EventOf(last, w.now, w.clock(n));
      assert EventsOf(Base(it), items, w.now, w.clock) == es + [e];
      FollowsMore(p, it.severity, alpha, h, es, ks, e, ds[n]);
    } else {
      assert EventsOf(Base(it), items, w.now, w.clock) == es + [];
      assert es + [] == es && ks + [] == ks;
    }
  }

  lemma OneInKFollows(p: Policy, sev: Severity, alpha: real, h: seq<Event>, es: seq<Event>, ks: seq<Decision>,
                      a: nat) returns (j: nat)
    requires Follows(p, sev, alpha, h, es, ks) && a + GetSteadyK(p, sev) <= |ks|
    ensures a <= j < a + GetSteadyK(p, sev) && ks[j].action == Keep
  {
    var k := GetSteadyK(p, sev);
    hide Evaluate, Run, Returned, GetSteadyK;
    var cs := seq(k, x requires 0 <= x < k => Returned(h + es[..a + x + 1], alpha));
    forall x | 0 <= x < k ensures cs[x].total == |h| + a + x + 1 { CountersOrdered(h + es[..a + x + 1], alpha); }
    j := OneInK(p, sev, cs);
    j := a + j;
  }

  /** Of any K decisions on one key in a row, one is Keep. */
  lemma OneInKOfBatch(p: Policy, alpha: real, keys: map<string, Key>, items: seq<Option<Item>>, w: World,
                      h: seq<Event>, it: Item, a: nat) returns (j: nat)
    requires Answer(p, alpha, keys, items, w).result.Decided? && KeyOf(keys, Base(it)) == Run(h, alpha)
    requires |Answer(p, alpha, keys, items, w).result.decisions| == |items|
    requires var ks := DecisionsOn(Base(it), items, Answer(p, alpha, keys, items, w).result.decisions);
             a + GetSteadyK(p, it.severity) <= |ks|
    ensures var ks := DecisionsOn(Base(it), items, Answer(p, alpha, keys, items, w).result.decisions);
            a <= j < a + GetSteadyK(p, it.severity) && ks[j].action == Keep
  {
    KeyFollows(p, alpha, keys, items, w, h, it);
    hide DecideAll, Base, Run, EventsOf, DecisionsOn, GetSteadyK, Follows;
    var ks := DecisionsOn(Base(it), items, Answer(p, alpha, keys, items, w).result.decisions);
    j := OneInKFollows(p, it.severity, alpha, h, EventsOf(Base(it), items, w.now, w.clock), ks, a);
  }

  function Keeps(ks: seq<Decision>): nat {
    if ks == [] then 0 else Keeps(ks[..|ks| - 1]) + if ks[|ks| - 1].action == Keep then 1 else 0
  }

  lemma AllReturnedMore(g: seq<Event>, e: Event, alpha: real)
    ensures AllReturned(g + [e], alpha) == AllReturned(g, alpha) + [Returned(g + [e], alpha)]
  {
    hide Returned;
    var f := g + [e];
    forall i | 0 <= i < |f| ensures AllReturned(f, alpha)[i] == (AllReturned(g, alpha) + [Returned(f, alpha)])[i] {
      if i < |g| { assert f[..i + 1] == g[..i + 1]; } else { assert f[..i + 1] == f; }
    }
  }

  lemma KeptMore(p: Policy, sev: Severity, cs: seq<Counts>, c: Counts)
    ensures Kept(p, sev, cs + [c]) == Kept(p, sev, cs) + if Evaluate(p, sev, c).action == Keep then 1 else 0
  {
    assert (cs + [c])[..|cs|] == cs;
    hide Evaluate;
  }

  lemma {:induction false} KeepsAreKept(p: Policy, sev: Severity, alpha: real, h: seq<Event>, es: seq<Event>,
                                        ks: seq<Decision>)
    requires Follows(p, sev, alpha, h, es, ks)
    ensures Keeps(ks) + Kept(p, sev, AllReturned(h, alpha)) == Kept(p, sev, AllReturned(h + es, alpha))
    decreases |ks|
  {
    hide Evaluate, Returned, AllReturned, Kept;
    if ks == [] {
      assert h + es == h;
    } else {
      var n := |ks| - 1;
      var fs, e, c := es[..n], es[n], Returned(h + es, alpha);
      forall j | 0 <= j < n ensures ks[..n][j].action == Evaluate(p, sev, Returned(h + fs[..j + 1], alpha)).action {
        assert fs[..j + 1] == es[..j + 1];
      }
      KeepsAreKept(p, sev, alpha, h, fs, ks[..n]);
      assert h + fs + [e] == h + es && es[..n + 1] == es;
      AllReturnedMore(h + fs, e, alpha);
      KeptMore(p, sev, AllReturned(h + fs, alpha), c);
    }
  }

  /** The decisions to keep on one key, over its whole run, are few but for its spikes. */
  lemma FewKeptOfBatch(p: Policy, alpha: real, keys: map<string, Key>, items: seq<Option<Item>>, w: World,
                       h: seq<Event>, it: Item)
    requires Answer(p, alpha, keys, items, w).result.Decided? && KeyOf(keys, Base(it)) == Run(h, alpha)
    requires |Answer(p, alpha, keys, items, w).result.decisions| == |items|
    requires !(it.severity in p.severityKeep && p.severityKeep[it.severity])
    ensures var ks := DecisionsOn(Base(it), items, Answer(p, alpha, keys, items, w).result.decisions);
            var g := h + EventsOf(Base(it), items, w.now, w.clock);
            Keeps(ks) <= Bound(p, it.severity, |g|) + Spikes(p, AllReturned(g, alpha))
  {
    KeyFollows(p, alpha, keys, items, w, h, it);
    var es := EventsOf(Base(it), items, w.now, w.clock);
    var ks := DecisionsOn(Base(it), items, Answer(p, alpha, keys, items, w).result.decisions);
    KeepsAreKept(p, it.severity, alpha, h, es, ks);
    var g := h + es;
    hide DecideAll, Evaluate, Base, Run, Returned, EventsOf, DecisionsOn, Keeps, Kept, Bound, Spikes;
    var cs := AllReturned(g, alpha);
    forall i | 0 <= i < |g| ensures cs[i].total == i + 1 { CountersOrdered(g[..i + 1], alpha); }
    KeptAtMost(p, it.severity, cs);
  }

  // ------------------------------------------------------------ key and time

  function ServiceOf(it: Item): string { if "service" in it.labels then it.labels["service"] else "" }

  function EnvOf(it: Item): string { if "env" in it.labels then it.labels["env"] else "" }

  /** Blank names are as good as missing ones, and space around labels does not count. */
  predicate Agree(a: Item, b: Item) {
    && (if TrimSpace(a.tenantId) == "" then "default" else a.tenantId)
    == (if TrimSpace(b.tenantId) == "" then "default" else b.tenantId)
    && a.templateId == b.templateId && a.severity == b.severity
    && Nz(TrimSpace(ServiceOf(a)), "-") == Nz(TrimSpace(ServiceOf(b)), "-")
    && Nz(TrimSpace(EnvOf(a)), "-") == Nz(TrimSpace(EnvOf(b)), "-")
  }

  /** Without colons, two items share counters exactly if tenant, template, service, environment and severity
      agree. */
  lemma ItemsShareExactly(a: Item, b: Item)
    requires forall it | it in {a, b} :: NoColon(it.tenantId) && NoColon(it.templateId)
    requires forall it | it in {a, b} :: NoColon(TrimSpace(ServiceOf(it))) && NoColon(TrimSpace(EnvOf(it)))
    ensures Base(a) == Base(b) <==> Agree(a, b)
  {
    DefaultStays(a.tenantId);
    DefaultStays(b.tenantId);
    hide TrimSpace, BaseKey;
    if Base(a) == Base(b) {
      BaseKeyInjective(Nz(a.tenantId, "default"), a.templateId, TrimSpace(ServiceOf(a)), TrimSpace(EnvOf(a)),
        a.severity, Nz(b.tenantId, "default"), b.templateId, TrimSpace(ServiceOf(b)), TrimSpace(EnvOf(b)), b.severity);
    }
    if Agree(a, b) { SameParts(a, b); }
  }

  lemma DefaultStays(tenant: string)
    ensures Nz(Nz(tenant, "default"), "default") == Nz(tenant, "default")
  {
  }

  lemma SameParts(a: Item, b: Item)
    requires Nz(a.tenantId, "default") == Nz(b.tenantId, "default")
    requires a.templateId == b.templateId && a.severity == b.severity
    requires Nz(TrimSpace(ServiceOf(a)), "-") == Nz(TrimSpace(ServiceOf(b)), "-")
    requires Nz(TrimSpace(EnvOf(a)), "-") == Nz(TrimSpace(EnvOf(b)), "-")
    ensures Base(a) == Base(b)
  {
    hide TrimSpace, Nz, Join;
  }

  /** An item is counted at its own time, to the millisecond, or at that of the batch if it has none. */
  lemma TimeIsOwn(it: Item, now: int)
    ensures it.timestamp.None? || it.timestamp.value.seconds == 0 ==> TimeOf(it, now) == now
    ensures it.timestamp.Some? && it.timestamp.value.seconds != 0 ==>
              var nanos := it.timestamp.value.seconds * 1000000000 + it.timestamp.value.nanos;
              TimeOf(it, now) * 1000000 <= nanos < (TimeOf(it, now) + 1) * 1000000
  {
  }
}
