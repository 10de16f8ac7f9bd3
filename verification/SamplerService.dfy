/** The batch loop of the sampler service (sampler/pkg/service/service.go:36-102) and the names of its
    keys (sampler/pkg/redis/store.go:153-163). */
module SamplerServices {
  import opened GoStrings
  import opened Options
  import opened SamplerLadders
  import opened SamplerStores

  // ------------------------------------------------------------------ names

  function Nz(s: string, d: string): string { if TrimSpace(s) == "" then d else s }

  /** The number of a severity in the wire format. */
  function Digit(sev: Severity): string {
    match sev
    case Unspecified => "0"
    case Debug => "1"
    case Info => "2"
    case Warn => "3"
    case Error => "4"
    case Fatal => "5"
  }

  function KeyParts(tenant: string, template: string, service: string, env: string, sev: Severity): seq<string> {
    ["sampler", Nz(tenant, "default"), template, Nz(service, "-"), Nz(env, "-"), Digit(sev)]
  }

  function BaseKey(tenant: string, template: string, service: string, env: string, sev: Severity): string {
    Join(KeyParts(tenant, template, service, env, sev), ":")
  }

  // ------------------------------------------------------------------ batch

  datatype Timestamp = Timestamp(seconds: int, nanos: int)

  datatype Item = Item(
    recordIndex: int, tenantId: string, templateId: string, labels: map<string, string>, severity: Severity,
    timestamp: Option<Timestamp>)

  datatype Decision = Decision(
    recordIndex: int, action: Action, reason: Reason, count10m: nat, count1h: nat, count24h: nat, sampleRate: nat,
    policyVersion: string, note: Note)

  datatype Result = Decided(decisions: seq<Decision>) | NilItem | RedisError

  /** A reply of Redis that does not come may leave the MULTI block undone or done. */
  datatype Reply = Answered | LostBefore | LostAfter

  /** The readings of the clock of Redis during one Touch. */
  datatype Clock = Clock(now: int, later: Readings)

  datatype Outcome = Outcome(keys: map<string, Key>, result: Result)

  function LabelOf(it: Item, name: string): string { TrimSpace(if name in it.labels then it.labels[name] else "") }

  function Base(it: Item): string {
    BaseKey(Nz(it.tenantId, "default"), it.templateId, LabelOf(it, "service"), LabelOf(it, "env"), it.severity)
  }

  /** An item without a time of its own is counted at the time of the batch. */
  function TimeOf(it: Item, now: int): int {
    if it.timestamp.Some? && it.timestamp.value.seconds != 0
    then it.timestamp.value.seconds * 1000 + it.timestamp.value.nanos / 1000000
    else now
  }

  function Decide(p: Policy, it: Item, c: Counts): Decision {
    var v := Evaluate(p, it.severity, c);
    Decision(it.recordIndex, v.action, v.reason, c.win10m, c.win1h, c.win24h, v.sampleRate, p.version, v.note)
  }

  function DecideNext(p: Policy, alpha: real, before: Outcome, item: Option<Item>, now: int, clock: Clock,
                      reply: Reply): Outcome
    requires before.result.Decided?
  {
    if item.None? then Outcome(before.keys, NilItem)
    else
      var it := item.value;
      var base, ts := Base(it), TimeOf(it, now);
      var k := KeyOf(before.keys, base);
      match reply
      case LostBefore => Outcome(before.keys, RedisError)
      case LostAfter => Outcome(before.keys[base := Bumped(k, clock.now, ts)], RedisError)
      case Answered =>
        var t := Touched(k, clock.now, ts, alpha);
        var d := Decide(p, it, CountsOf(t, clock.now, ts, clock.later));
        Outcome(before.keys[base := t], Decided(before.result.decisions + [d]))
  }

  /** The batch, item by item, up to the first failure. */
  function DecideAll(p: Policy, alpha: real, keys: map<string, Key>, items: seq<Option<Item>>, now: int,
                     clock: nat -> Clock, reply: nat -> Reply): Outcome
  {
    if items == [] then Outcome(keys, Decided([]))
    else
      var n := |items| - 1;
      var before := DecideAll(p, alpha, keys, items[..n], now, clock, reply);
      if before.result.Decided? then DecideNext(p, alpha, before, items[n], now, clock(n), reply(n)) else before
  }

  class Service {
    const pol: Policy
    const alpha: real
    const store: Store

    constructor (pol: Policy, alpha: real, store: Store)
      ensures this.pol == pol && this.alpha == alpha && this.store == store
    {
      this.pol, this.alpha, this.store := pol, alpha, store;
    }

    method DecideBatch(items: seq<Option<Item>>, now: int, clock: nat -> Clock, reply: nat -> Reply)
      returns (result: Result)
      modifies store
      ensures Outcome(store.keys, result) == DecideAll(pol, alpha, old(store.keys), items, now, clock, reply)
    {
      hide TrimSpace, BaseKey, Bumped, Touched, CountsOf, Evaluate;
      if |items| == 0 {
        return Decided([]);
      }
      var out := [];
      ghost var keys := store.keys;
      var i := 0;
      while i < |items|
        invariant 0 <= i <= |items|
        invariant DecideAll(pol, alpha, keys, items[..i], now, clock, reply) == Outcome(store.keys, Decided(out))
      {
        assert items[..i + 1][..i] == items[..i];
        ghost var next := DecideAll(pol, alpha, keys, items[..i + 1], now, clock, reply);
        if items[i].None? {
          StaysFailed(pol, alpha, keys, items, now, clock, reply, i + 1);
          return NilItem;
        }
        var it := items[i].value;
        var tenant := Nz(it.tenantId, "default");
        var svc := TrimSpace(if "service" in it.labels then it.labels["service"] else "");
        var env := TrimSpace(if "env" in it.labels then it.labels["env"] else "");
        var ts := now;
        if it.timestamp.Some? && it.timestamp.value.seconds != 0 {
          ts := it.timestamp.value.seconds * 1000 + it.timestamp.value.nanos / 1000000;
        }
        var base := BaseKey(tenant, it.templateId, svc, env, it.severity);
        match reply(i) {
          case LostBefore =>
            StaysFailed(pol, alpha, keys, items, now, clock, reply, i + 1);
            return RedisError;
          case LostAfter =>
            store.Bump(base, ts, clock(i).now);
            assert next == Outcome(store.keys, RedisError);
            StaysFailed(pol, alpha, keys, items, now, clock, reply, i + 1);
            return RedisError;
          case Answered =>
        }
        var cnt := store.Touch(base, ts, alpha, clock(i).now, clock(i).later);
        var v := Evaluate(pol, it.severity, cnt);
        out := out + [Decision(it.recordIndex, v.action, v.reason, cnt.win10m, cnt.win1h, cnt.win24h, v.sampleRate,
                               pol.version, v.note)];
        assert next == Outcome(store.keys, Decided(out));
        i := i + 1;
      }
      assert items[..i] == items;
      return Decided(out);
    }
  }

  /** Nothing after a failure is touched; what was touched before it stays. */
  lemma {:induction false} StaysFailed(p: Policy, alpha: real, keys: map<string, Key>, items: seq<Option<Item>>,
                                       now: int, clock: nat -> Clock, reply: nat -> Reply, n: nat)
    requires n <= |items| && !DecideAll(p, alpha, keys, items[..n], now, clock, reply).result.Decided?
    ensures DecideAll(p, alpha, keys, items, now, clock, reply)
         == DecideAll(p, alpha, keys, items[..n], now, clock, reply)
    decreases |items|
  {
    if n == |items| {
      assert items[..n] == items;
    } else {
      assert items[..|items| - 1][..n] == items[..n];
      StaysFailed(p, alpha, keys, items[..|items| - 1], now, clock, reply, n);
    }
  }

  // ---------------------------------------------------------------- aligned

  /** A batch that succeeds has one decision per item, under the item's own index. */
  lemma {:induction false} Aligned(p: Policy, alpha: real, keys: map<string, Key>, items: seq<Option<Item>>, now: int,
                                   clock: nat -> Clock, reply: nat -> Reply)
    requires DecideAll(p, alpha, keys, items, now, clock, reply).result.Decided?
    ensures var ds := DecideAll(p, alpha, keys, items, now, clock, reply).result.decisions;
            && |ds| == |items|
            && (forall i | 0 <= i < |items| ::
                  items[i].Some? && reply(i) == Answered && ds[i].recordIndex == items[i].value.recordIndex)
  {
    hide TrimSpace, BaseKey, Touched, CountsOf, Evaluate;
    if items != [] {
      Aligned(p, alpha, keys, items[..|items| - 1], now, clock, reply);
    }
  }

  // ----------------------------------------------------------- one key's run

  function EventOf(it: Item, now: int, clock: Clock): Event { Event(clock.now, TimeOf(it, now), clock.later) }

  /** The events that a batch counts for one key. */
  function EventsOf(base: string, items: seq<Option<Item>>, now: int, clock: nat -> Clock): seq<Event> {
    if items == [] then []
    else
      var n := |items| - 1;
      EventsOf(base, items[..n], now, clock)
      + if items[n].Some? && Base(items[n].value) == base then [EventOf(items[n].value, now, clock(n))] else []
  }

  lemma RunNext(h: seq<Event>, e: Event, alpha: real)
    ensures Run(h + [e], alpha) == Touched(Run(h, alpha), e.now, e.ts, alpha)
  {
    assert (h + [e])[..|h|] == h;
  }

  lemma DecideLast(p: Policy, alpha: real, keys: map<string, Key>, items: seq<Option<Item>>, now: int,
                   clock: nat -> Clock, reply: nat -> Reply)
    requires items != [] && DecideAll(p, alpha, keys, items, now, clock, reply).result.Decided?
    ensures var n := |items| - 1;
            var before := DecideAll(p, alpha, keys, items[..n], now, clock, reply);
            && before.result.Decided?
            && DecideAll(p, alpha, keys, items, now, clock, reply)
            == DecideNext(p, alpha, before, items[n], now, clock(n), reply(n))
  {
    hide DecideNext;
  }

  lemma NextTouches(p: Policy, alpha: real, before: Outcome, item: Option<Item>, now: int, clock: Clock, reply: Reply,
                    base: string)
    requires before.result.Decided? && DecideNext(p, alpha, before, item, now, clock, reply).result.Decided?
    ensures item.Some?
    ensures KeyOf(DecideNext(p, alpha, before, item, now, clock, reply).keys, base)
         == if Base(item.value) == base
            then Touched(KeyOf(before.keys, base), clock.now, TimeOf(item.value, now), alpha)
            else KeyOf(before.keys, base)
  {
    hide Touched, CountsOf, Evaluate, TimeOf, Base;
  }

  lemma NextDecides(p: Policy, alpha: real, before: Outcome, item: Option<Item>, now: int, clock: Clock, reply: Reply)
    requires before.result.Decided? && DecideNext(p, alpha, before, item, now, clock, reply).result.Decided?
    ensures item.Some?
    ensures var next := DecideNext(p, alpha, before, item, now, clock, reply);
            var c := CountsOf(KeyOf(next.keys, Base(item.value)), clock.now, TimeOf(item.value, now), clock.later);
            next.result.decisions == before.result.decisions + [Decide(p, item.value, c)]
  {
    hide Touched, CountsOf, Evaluate, TimeOf, Base;
  }

  lemma EventsLast(base: string, items: seq<Option<Item>>, now: int, clock: nat -> Clock, h: seq<Event>)
    requires items != [] && items[|items| - 1].Some?
    ensures var n := |items| - 1;
            var g := h + EventsOf(base, items[..n], now, clock);
            h + EventsOf(base, items, now, clock)
            == if Base(items[n].value) == base then g + [EventOf(items[n].value, now, clock(n))] else g
  {
    hide Base, TimeOf;
  }

  /** Batches run every key through exactly its own events. */
  lemma {:induction false} BatchRuns(p: Policy, alpha: real, keys: map<string, Key>, items: seq<Option<Item>>, now: int,
                                     clock: nat -> Clock, reply: nat -> Reply, base: string, h: seq<Event>)
    requires KeyOf(keys, base) == Run(h, alpha)
    requires DecideAll(p, alpha, keys, items, now, clock, reply).result.Decided?
    ensures KeyOf(DecideAll(p, alpha, keys, items, now, clock, reply).keys, base)
         == Run(h + EventsOf(base, items, now, clock), alpha)
  {
    if items == [] {
      assert h + [] == h;
    } else {
      hide Run, Touched, Base, TimeOf, KeyOf, DecideNext, EventsOf, DecideAll;
      var n := |items| - 1;
      DecideLast(p, alpha, keys, items, now, clock, reply);
      BatchRuns(p, alpha, keys, items[..n], now, clock, reply, base, h);
      var before := DecideAll(p, alpha, keys, items[..n], now, clock, reply);
      NextTouches(p, alpha, before, items[n], now, clock(n), reply(n), base);
      EventsLast(base, items, now, clock, h);
      RunNext(h + EventsOf(base, items[..n], now, clock), EventOf(items[n].value, now, clock(n)), alpha);
    }
  }

  /** Every decision is the ladder's on the counters of the key's run so far. */
  lemma {:induction false} DecisionsFollowRuns(p: Policy, alpha: real, keys: map<string, Key>, items: seq<Option<Item>>,
                                               now: int, clock: nat -> Clock, reply: nat -> Reply, h: seq<Event>,
                                               i: nat)
    requires i < |items| && DecideAll(p, alpha, keys, items, now, clock, reply).result.Decided?
    requires items[i].Some? && KeyOf(keys, Base(items[i].value)) == Run(h, alpha)
    ensures var ds := DecideAll(p, alpha, keys, items, now, clock, reply).result.decisions;
            var g := h + EventsOf(Base(items[i].value), items[..i + 1], now, clock);
            && i < |ds| && g != []
            && ds[i] == Decide(p, items[i].value, Returned(g, alpha))
    decreases |items|
  {
    hide Run, Touched, Base, TimeOf, KeyOf, DecideNext, EventsOf, DecideAll, CountsOf, Evaluate, Decide;
    var n, it := |items| - 1, items[i].value;
    DecideLast(p, alpha, keys, items, now, clock, reply);
    var before := DecideAll(p, alpha, keys, items[..n], now, clock, reply);
    Aligned(p, alpha, keys, items[..n], now, clock, reply);
    NextDecides(p, alpha, before, items[n], now, clock(n), reply(n));
    if i < n {
      assert items[..n][..i + 1] == items[..i + 1];
      DecisionsFollowRuns(p, alpha, keys, items[..n], now, clock, reply, h, i);
    } else {
      assert items[..i + 1] == items;
      BatchRuns(p, alpha, keys, items, now, clock, reply, Base(it), h);
      EventsLast(Base(it), items, now, clock, h);
    }
  }

  // ------------------------------------------------------------- own counters

  predicate NoColon(s: string) { ':' !in s }

  lemma DigitsDiffer(a: Severity, b: Severity)
    requires Digit(a) == Digit(b)
    ensures a == b
  {
  }

  lemma KeySplits(tenant: string, template: string, service: string, env: string, sev: Severity)
    requires NoColon(tenant) && NoColon(template) && NoColon(service) && NoColon(env)
    ensures Split(BaseKey(tenant, template, service, env, sev), ':') == KeyParts(tenant, template, service, env, sev)
  {
    SplitJoin(KeyParts(tenant, template, service, env, sev), ':');
  }

  /** Without colons in their names, two templates share counters only if they are the same. */
  lemma BaseKeyInjective(tenant: string, template: string, service: string, env: string, sev: Severity,
                         tenant': string, template': string, service': string, env': string, sev': Severity)
    requires NoColon(tenant) && NoColon(template) && NoColon(service) && NoColon(env)
    requires NoColon(tenant') && NoColon(template') && NoColon(service') && NoColon(env')
    requires BaseKey(tenant, template, service, env, sev) == BaseKey(tenant', template', service', env', sev')
    ensures Nz(tenant, "default") == Nz(tenant', "default") && template == template'
    ensures Nz(service, "-") == Nz(service', "-") && Nz(env, "-") == Nz(env', "-") && sev == sev'
  {
    KeySplits(tenant, template, service, env, sev);
    KeySplits(tenant', template', service', env', sev');
    hide Nz, BaseKey, Split;
    var p, q := KeyParts(tenant, template, service, env, sev), KeyParts(tenant', template', service', env', sev');
    assert p[1] == q[1] && p[2] == q[2] && p[3] == q[3] && p[4] == q[4] && p[5] == q[5];
    DigitsDiffer(sev, sev');
  }
}
