/** The sampler's counters in Redis (sampler/pkg/redis/store.go): per key a total, minute buckets that
    expire, a moving average, and sliding-window sums read from the buckets.  Times are integer
    milliseconds since the epoch; the average is over the reals. */
module SamplerStores {
  import opened Options

  const TTL := 26 * 60 * 60 * 1000

  // ------------------------------------------------------------------- time

  /** Go's Unix() */
  function Seconds(t: int): int { t / 1000 }

  /** Go's division cuts toward zero. */
  function Minute(t: int): int {
    if Seconds(t) >= 0 then Seconds(t) / 60 else -((-Seconds(t)) / 60)
  }

  // ------------------------------------------------------------------ state

  datatype Bucket = Bucket(count: nat, expiresAt: int)

  /** What Redis has under the names that share one base key. */
  datatype Key = Key(buckets: map<int, Bucket>, total: nat, first: Option<int>, last: Option<int>, ema: real)

  const NEW_KEY := Key(map[], 0, None, None, 0.0)

  datatype Counts = Counts(
    curMin: nat, win10m: nat, win1h: nat, win24h: nat, total: nat, ema: real, first: int, last: int)

  /** GET of a bucket: an expired one is gone. */
  function Value(buckets: map<int, Bucket>, m: int, now: int): nat {
    if m in buckets && now <= buckets[m].expiresAt then buckets[m].count else 0
  }

  /** The MULTI block of Touch. */
  function Bumped(k: Key, now: int, ts: int): Key {
    var m := Minute(ts);
    k.(buckets := k.buckets[m := Bucket(Value(k.buckets, m, now) + 1, now + TTL)],
       total := k.total + 1,
       first := if k.first.None? then Some(Seconds(ts)) else k.first,
       last := Some(Seconds(ts)))
  }

  function Averaged(curMin: nat, ema: real, alpha: real): real {
    alpha * curMin as real + (1.0 - alpha) * ema
  }

  function Touched(k: Key, now: int, ts: int, alpha: real): Key {
    var b := Bumped(k, now, ts);
    b.(ema := Averaged(Value(b.buckets, Minute(ts), now), b.ema, alpha))
  }

  function Sum(buckets: map<int, Bucket>, from: int, upto: int, now: int): nat
    decreases upto - from
  {
    if from > upto then 0 else Value(buckets, upto, now) + Sum(buckets, from, upto - 1, now)
  }

  function Window(buckets: map<int, Bucket>, m: int, span: nat, now: int): nat { Sum(buckets, m - span, m, now) }

  /** The clock when the three windows are summed. */
  datatype Readings = Readings(at10: int, at60: int, at1440: int)

  /** What Touch returns, seen from the state it leaves. */
  function CountsOf(k: Key, now: int, ts: int, later: Readings): Counts {
    var m := Minute(ts);
    Counts(Value(k.buckets, m, now), Window(k.buckets, m, 10, later.at10), Window(k.buckets, m, 60, later.at60),
           Window(k.buckets, m, 1440, later.at1440), k.total, k.ema,
           if k.first.Some? then k.first.value else 0, if k.last.Some? then k.last.value else 0)
  }

  /** What GET finds under a base key, where nothing may be stored yet. */
  function KeyOf(keys: map<string, Key>, base: string): Key { if base in keys then keys[base] else NEW_KEY }

  // ------------------------------------------------------------------ class

  class Store {
    var keys: map<string, Key>

    constructor ()
      ensures keys == map[]
    {
      keys := map[];
    }

    method SumWindow(base: string, currentMinute: int, spanMins: nat, now: int) returns (sum: nat)
      ensures sum == Window(KeyOf(keys, base).buckets, currentMinute, spanMins, now)
    {
      var start := currentMinute - spanMins;
      sum := 0;
      var m := start;
      while m <= currentMinute
        invariant start <= m <= currentMinute + 1
        invariant sum == Sum(KeyOf(keys, base).buckets, start, m - 1, now)
      {
        sum := sum + Value(KeyOf(keys, base).buckets, m, now);
        m := m + 1;
      }
    }

    /** The first half of Touch, which may have happened even if its reply is lost. */
    method Bump(base: string, ts: int, now: int)
      modifies this
      ensures keys == old(keys)[base := Bumped(KeyOf(old(keys), base), now, ts)]
    {
      var k := if base in keys then keys[base] else NEW_KEY;
      var min := Minute(ts);
      var count := if min in k.buckets && now <= k.buckets[min].expiresAt then k.buckets[min].count else 0;
      k := k.(buckets := k.buckets[min := Bucket(count + 1, now + TTL)]);
      k := k.(total := k.total + 1);
      if k.first == None {
        k := k.(first := Some(Seconds(ts)));
      }
      k := k.(last := Some(Seconds(ts)));
      keys := keys[base := k];
    }

    method Touch(base: string, ts: int, alpha: real, now: int, later: Readings) returns (out: Counts)
      modifies this
      ensures keys == old(keys)[base := Touched(KeyOf(old(keys), base), now, ts, alpha)]
      ensures out == CountsOf(keys[base], now, ts, later)
    {
      Bump(base, ts, now);
      var k := keys[base];
      var curMin := Value(k.buckets, Minute(ts), now);
      var newEma := alpha * curMin as real + (1.0 - alpha) * k.ema;
      assert newEma == Averaged(curMin, k.ema, alpha);
      ghost var was := KeyOf(old(keys), base);
      hide Averaged, Bumped;
      assert k.(ema := newEma) == Touched(was, now, ts, alpha);
      keys := keys[base := k.(ema := newEma)];
      assert keys == old(keys)[base := k.(ema := newEma)];
      var win10 := SumWindow(base, Minute(ts), 10, later.at10);
      var win60 := SumWindow(base, Minute(ts), 60, later.at60);
      var win1440 := SumWindow(base, Minute(ts), 24 * 60, later.at1440);
      out := Counts(curMin, win10, win60, win1440, k.total, newEma, k.first.value, k.last.value);
    }
  }

  // ------------------------------------------------------------------- runs

  /** An event of time ts that is counted when the clock of Redis shows now, and whose windows are summed when
      it shows later. */
  datatype Event = Event(now: int, ts: int, later: Readings)

  function Run(h: seq<Event>, alpha: real): Key {
    if h == [] then NEW_KEY
    else Touched(Run(h[..|h| - 1], alpha), h[|h| - 1].now, h[|h| - 1].ts, alpha)
  }

  /** What the last Touch of a run returned. */
  function Returned(h: seq<Event>, alpha: real): Counts
    requires h != []
  {
    var e := h[|h| - 1];
    CountsOf(Run(h, alpha), e.now, e.ts, e.later)
  }

  /** How many events fell into a range of minutes. */
  function Count(h: seq<Event>, from: int, upto: int): nat {
    if h == [] then 0
    else Count(h[..|h| - 1], from, upto) + if from <= Minute(h[|h| - 1].ts) <= upto then 1 else 0
  }

  lemma {:induction false} CountSplit(h: seq<Event>, from: int, upto: int)
    requires from <= upto
    ensures Count(h, from, upto) == Count(h, from, upto - 1) + Count(h, upto, upto)
  {
    if h != [] { CountSplit(h[..|h| - 1], from, upto); }
  }

  lemma {:induction false} CountNone(h: seq<Event>, from: int, upto: int)
    requires from > upto
    ensures Count(h, from, upto) == 0
  {
    if h != [] { CountNone(h[..|h| - 1], from, upto); }
  }

  lemma {:induction false} CountAll(h: seq<Event>, from: int, upto: int)
    ensures Count(h, from, upto) <= |h|
  {
    if h != [] { CountAll(h[..|h| - 1], from, upto); }
  }

  /** The events of minute m that its bucket counts at a time: those since it last expired. */
  function Live(h: seq<Event>, m: int, now: int): nat {
    if h == [] then 0
    else
      var g, e := h[..|h| - 1], h[|h| - 1];
      if Minute(e.ts) != m then Live(g, m, now)
      else if now <= e.now + TTL then Live(g, m, e.now) + 1
      else 0
  }

  lemma {:induction false} ValueIsLive(h: seq<Event>, alpha: real, m: int, now: int)
    ensures Value(Run(h, alpha).buckets, m, now) == Live(h, m, now)
  {
    if h != [] {
      var g, e := h[..|h| - 1], h[|h| - 1];
      ValueIsLive(g, alpha, m, now);
      ValueIsLive(g, alpha, m, e.now);
      hide Averaged, Minute;
    }
  }

  /** How many earlier events the bucket of event i counts when it comes. */
  function Earlier(h: seq<Event>, i: nat): nat
    requires i < |h|
  {
    Live(h[..i], Minute(h[i].ts), h[i].now)
  }

  // ------------------------------------------------------- whatever the clock

  /** No bucket counts more than its events; totals and ends are right. */
  ghost predicate Tallied(h: seq<Event>, k: Key) {
    && k.total == |h|
    && (forall m | m in k.buckets :: k.buckets[m].count <= Count(h, m, m))
    && (h != [] ==> k.first == Some(Seconds(h[0].ts)) && k.last == Some(Seconds(h[|h| - 1].ts)))
    && (h == [] ==> k.first.None?)
  }

  lemma CountMore(h: seq<Event>, e: Event, from: int, upto: int)
    ensures Count(h + [e], from, upto) == Count(h, from, upto) + if from <= Minute(e.ts) <= upto then 1 else 0
  {
    assert (h + [e])[..|h|] == h;
  }

  lemma BumpTallied(h: seq<Event>, k: Key, e: Event)
    requires Tallied(h, k)
    ensures Tallied(h + [e], Bumped(k, e.now, e.ts))
  {
    forall l | l in Bumped(k, e.now, e.ts).buckets
      ensures Bumped(k, e.now, e.ts).buckets[l].count <= Count(h + [e], l, l)
    {
      assert Value(k.buckets, l, e.now) <= Count(h, l, l);
      CountMore(h, e, l, l);
    }
    hide Count, Minute;
  }

  lemma {:induction false} RunTallied(h: seq<Event>, alpha: real)
    ensures Tallied(h, Run(h, alpha))
  {
    if h != [] {
      var g, e := h[..|h| - 1], h[|h| - 1];
      RunTallied(g, alpha);
      BumpTallied(g, Run(g, alpha), e);
      assert g + [e] == h;
      hide Bumped, Averaged, Count, Value;
    }
  }

  lemma {:induction false} SumBelow(h: seq<Event>, k: Key, from: int, upto: int, now: int)
    requires Tallied(h, k)
    ensures Sum(k.buckets, from, upto, now) <= Count(h, from, upto)
    decreases upto - from
  {
    if from <= upto {
      SumBelow(h, k, from, upto - 1, now);
      CountSplit(h, from, upto);
      assert Value(k.buckets, upto, now) <= Count(h, upto, upto);
    }
  }

  lemma {:induction false} SumGrows(buckets: map<int, Bucket>, from: int, further: int, upto: int, now: int)
    requires further <= from
    ensures Sum(buckets, from, upto, now) <= Sum(buckets, further, upto, now)
    decreases upto - further
  {
    if further <= upto { SumGrows(buckets, from, further, upto - 1, now); }
  }

  lemma WindowsBelowTotal(h: seq<Event>, alpha: real, m: int, span: nat, at: int)
    ensures Window(Run(h, alpha).buckets, m, span, at) <= |h|
  {
    RunTallied(h, alpha);
    SumBelow(h, Run(h, alpha), m - span, m, at);
    CountAll(h, m - span, m);
  }

  /** Whatever the clock and the order of events, no counter exceeds the total; and those that are read at one
      time, while the bucket of the event lives, are ordered. */
  lemma CountersOrdered(h: seq<Event>, alpha: real)
    requires h != []
    ensures var c, e := Returned(h, alpha), h[|h| - 1];
            && 1 <= c.curMin <= c.total == |h|
            && c.win10m <= c.total && c.win1h <= c.total && c.win24h <= c.total
            && (e.later.at10 <= e.now + TTL ==> c.curMin <= c.win10m)
            && (e.later.at10 == e.later.at60 ==> c.win10m <= c.win1h)
            && (e.later.at60 == e.later.at1440 ==> c.win1h <= c.win24h)
            && c.first == Seconds(h[0].ts) && c.last == Seconds(h[|h| - 1].ts)
  {
    var e, k := h[|h| - 1], Run(h, alpha);
    var m, r := Minute(e.ts), e.later;
    RunTallied(h, alpha);
    LastBucket(h, alpha);
    CountAll(h, m, m);
    WindowsBelowTotal(h, alpha, m, 10, r.at10);
    WindowsBelowTotal(h, alpha, m, 60, r.at60);
    WindowsBelowTotal(h, alpha, m, 1440, r.at1440);
    assert Sum(k.buckets, m, m, r.at10) == Value(k.buckets, m, r.at10) + Sum(k.buckets, m, m - 1, r.at10);
    SumGrows(k.buckets, m, m - 10, m, r.at10);
    SumGrows(k.buckets, m - 10, m - 60, m, r.at60);
    SumGrows(k.buckets, m - 60, m - 1440, m, r.at1440);
    hide Run, Sum, Count, Minute;
  }

  lemma LastBucket(h: seq<Event>, alpha: real)
    requires h != []
    ensures var e, k := h[|h| - 1], Run(h, alpha);
            && Minute(e.ts) in k.buckets && k.buckets[Minute(e.ts)].count >= 1
            && k.buckets[Minute(e.ts)].expiresAt == e.now + TTL
  {
    hide Minute, Averaged;
  }

  // --------------------------------------------------------- a steady clock

  /** The clock starts after the epoch and never goes back, and events are at most skew away from it. */
  ghost predicate Steady(h: seq<Event>, skew: nat) {
    && (forall i | 0 <= i < |h| :: h[i].now >= 0)
    && (forall i, j | 0 <= i < j < |h| :: h[i].now <= h[j].now)
    && (forall i | 0 <= i < |h| :: h[i].now - skew <= h[i].ts <= h[i].now + skew)
  }

  /** Since a bucket was last counted up, not enough time has passed for it to expire. */
  ghost predicate Fresh(h: seq<Event>, m: int, now: int) {
    forall i | 0 <= i < |h| && Minute(h[i].ts) == m :: now <= h[i].now + TTL
  }

  ghost predicate Full(h: seq<Event>, k: Key, m: int, now: int) {
    Value(k.buckets, m, now) == Count(h, m, m)
  }

  lemma {:induction false} CountFresh(h: seq<Event>, m: int)
    requires forall i | 0 <= i < |h| :: Minute(h[i].ts) != m
    ensures Count(h, m, m) == 0
  {
    if h != [] { CountFresh(h[..|h| - 1], m); }
  }

  /** A bucket that has stayed fresh has all its events. */
  lemma {:induction false} FreshIsFull(h: seq<Event>, alpha: real, m: int, now: int)
    requires forall i, j | 0 <= i < j < |h| :: h[i].now <= h[j].now
    requires h != [] ==> h[|h| - 1].now <= now
    requires Fresh(h, m, now)
    ensures Full(h, Run(h, alpha), m, now)
  {
    if h != [] {
      var g, e := h[..|h| - 1], h[|h| - 1];
      assert Fresh(g, m, now) && Fresh(g, m, e.now) by {
        forall i | 0 <= i < |g| && Minute(g[i].ts) == m ensures now <= g[i].now + TTL && e.now <= g[i].now + TTL {
          assert g[i] == h[i];
        }
      }
      if Minute(e.ts) == m {
        FreshIsFull(g, alpha, m, e.now);
      } else {
        FreshIsFull(g, alpha, m, now);
      }
    }
  }

  lemma {:induction false} SumFull(h: seq<Event>, k: Key, from: int, upto: int, now: int)
    requires forall m | from <= m <= upto :: Full(h, k, m, now)
    ensures Sum(k.buckets, from, upto, now) == Count(h, from, upto)
    decreases upto - from
  {
    if from <= upto {
      SumFull(h, k, from, upto - 1, now);
      assert Full(h, k, upto, now);
      CountSplit(h, from, upto);
    } else {
      CountNone(h, from, upto);
    }
  }

  /** The longest stretch of time that one window covers. */
  lemma WindowLength(a: int, b: int, span: nat)
    requires Minute(b) - Minute(a) <= span
    ensures a >= 0 ==> b - a <= span * 60000 + 59999
    ensures a < 0 ==> b <= span * 60000 + 59999
  {
  }

  /** Reading a window of event c at a time finds exactly the events of its minutes so far. */
  ghost predicate Exact(h: seq<Event>, alpha: real, c: nat, span: nat, at: int)
    requires c < |h|
  {
    var m := Minute(h[c].ts);
    Window(Run(h, alpha).buckets, m, span, at) == Count(h, m - span, m)
  }

  /** The window is read when all of h has been counted, and soon enough after its own event. */
  predicate ReadSoon(h: seq<Event>, c: nat, at: int, delay: nat) {
    c < |h| && h[|h| - 1].now <= at <= h[c].now + delay
  }

  /** How far times may differ for a day's buckets to outlive a day. */
  predicate Enough(skew: nat, delay: nat) { 2 * skew + delay <= 7140001 }

  /** Small skew and a short delay keep every bucket of a window fresh. */
  lemma WindowFresh(h: seq<Event>, skew: nat, delay: nat, c: nat, span: nat, at: int, m: int)
    requires Steady(h, skew) && span <= 1440 && ReadSoon(h, c, at, delay) && Enough(skew, delay)
    requires Minute(h[c].ts) - span <= m
    ensures Fresh(h, m, at)
  {
    forall i | 0 <= i < |h| && Minute(h[i].ts) == m ensures at <= h[i].now + TTL {
      WindowLength(h[i].ts, h[c].ts, span);
    }
  }

  /** Every window that Touch asks for is exact, whatever was counted between its event and the reading. */
  lemma WindowsExact(h: seq<Event>, alpha: real, skew: nat, delay: nat, c: nat, span: nat, at: int)
    requires Steady(h, skew) && span <= 1440 && ReadSoon(h, c, at, delay) && Enough(skew, delay)
    ensures Exact(h, alpha, c, span, at)
  {
    var upto := Minute(h[c].ts);
    forall m | upto - span <= m <= upto ensures Full(h, Run(h, alpha), m, at) {
      WindowFresh(h, skew, delay, c, span, at, m);
      FreshIsFull(h, alpha, m, at);
    }
    SumFull(h, Run(h, alpha), upto - span, upto, at);
  }

  /** With a steady clock and short delays, what Touch returns is counted from the events, and ordered. */
  lemma CountersExact(h: seq<Event>, alpha: real, skew: nat, delay: nat)
    requires h != [] && Steady(h, skew) && Enough(skew, delay)
    requires var c, r := |h| - 1, h[|h| - 1].later;
             ReadSoon(h, c, r.at10, delay) && ReadSoon(h, c, r.at60, delay) && ReadSoon(h, c, r.at1440, delay)
    ensures var c, m := Returned(h, alpha), Minute(h[|h| - 1].ts);
            && c.curMin == Count(h, m, m)
            && c.win10m == Count(h, m - 10, m) && c.win1h == Count(h, m - 60, m) && c.win24h == Count(h, m - 1440, m)
            && 1 <= c.curMin <= c.win10m <= c.win1h <= c.win24h <= c.total
  {
    var c, r, now := |h| - 1, h[|h| - 1].later, h[|h| - 1].now;
    WindowsExact(h, alpha, skew, 0, c, 0, now);
    WindowsExact(h, alpha, skew, delay, c, 10, r.at10);
    WindowsExact(h, alpha, skew, delay, c, 60, r.at60);
    WindowsExact(h, alpha, skew, delay, c, 1440, r.at1440);
    var k, m := Run(h, alpha), Minute(h[c].ts);
    assert Window(k.buckets, m, 0, now) == Value(k.buckets, m, now) + Sum(k.buckets, m, m - 1, now);
    CountersOrdered(h, alpha);
    CountWider(h, m, m - 10, m);
    CountWider(h, m - 10, m - 60, m);
    CountWider(h, m - 60, m - 1440, m);
    hide Run, Count, Minute, Steady;
  }

  lemma {:induction false} CountWider(h: seq<Event>, from: int, further: int, upto: int)
    requires further <= from
    ensures Count(h, from, upto) <= Count(h, further, upto)
  {
    if h != [] { CountWider(h[..|h| - 1], from, further, upto); }
  }

  function AtOnce(now: int): Readings { Readings(now, now, now) }

  /** The two ends of a day of events, as far apart on the clock as the skew allows; from is the start of
      minute q. */
  function FarApart(q: nat, skew: nat): seq<Event> {
    [Event(60000 * q - skew, 60000 * q, AtOnce(0)), Event(60000 * q + 86459999 + skew, 60000 * q + 86459999, AtOnce(0))]
  }

  lemma RunTwo(a: Event, b: Event, alpha: real)
    ensures Run([a, b], alpha) == Touched(Touched(NEW_KEY, a.now, a.ts, alpha), b.now, b.ts, alpha)
  {
    var g, h := [a], [a, b];
    assert g[..0] == [] && h[..1] == g;
    assert Run(g, alpha) == Touched(NEW_KEY, a.now, a.ts, alpha);
  }

  lemma CountTwo(a: Event, b: Event, from: int, upto: int)
    ensures Count([a, b], from, upto)
         == (if from <= Minute(a.ts) <= upto then 1 else 0) + if from <= Minute(b.ts) <= upto then 1 else 0
  {
    var g, h := [a], [a, b];
    assert g[..0] == [] && h[..1] == g;
    assert Count(g, from, upto) == if from <= Minute(a.ts) <= upto then 1 else 0;
  }

  lemma FarApartMinutes(q: nat)
    ensures Minute(60000 * q) == q && Minute(60000 * q + 86459999) == q + 1440
  {
  }

  lemma FarApartMisses(q: nat, alpha: real, skew: nat, delay: nat)
    requires skew <= 60000 * q && !Enough(skew, delay)
    ensures var h := FarApart(q, skew);
            Steady(h, skew) && ReadSoon(h, 1, h[1].now + delay, delay) && !Exact(h, alpha, 1, 1440, h[1].now + delay)
  {
    var h := FarApart(q, skew);
    var a, b := h[0], h[1];
    var at := b.now + delay;
    FarApartMinutes(q);
    RunTwo(a, b, alpha);
    var k := Run(h, alpha);
    FarApartBuckets(a, b, alpha);
    CountTwo(a, b, q + 1, q + 1440);
    CountTwo(a, b, q, q + 1440);
    RunTallied(h, alpha);
    hide Run, Count, Sum, Minute, Touched;
    SumBelow(h, k, q + 1, q + 1440, at);
    SumStarts(k.buckets, q, q + 1440, at);
  }

  lemma FarApartBuckets(a: Event, b: Event, alpha: real)
    requires Minute(a.ts) != Minute(b.ts)
    ensures var k := Touched(Touched(NEW_KEY, a.now, a.ts, alpha), b.now, b.ts, alpha);
            Minute(a.ts) in k.buckets && k.buckets[Minute(a.ts)] == Bucket(1, a.now + TTL)
  {
    hide Averaged, Minute;
  }

  lemma {:induction false} SumStarts(buckets: map<int, Bucket>, from: int, upto: int, now: int)
    requires from <= upto
    ensures Sum(buckets, from, upto, now) == Value(buckets, from, now) + Sum(buckets, from + 1, upto, now)
    decreases upto - from
  {
    if from < upto { SumStarts(buckets, from, upto - 1, now); }
  }

  ghost predicate AlwaysExact(alpha: real, skew: nat, delay: nat) {
    forall h, c, at | Steady(h, skew) && ReadSoon(h, c, at, delay) :: Exact(h, alpha, c, 1440, at)
  }

  /** The day window is exact on all runs exactly as long as twice the skew and the delay of the reading
      stay below 1 h 59 min and 0.001 s together; without delay, up to a skew of 59 and a half minutes. */
  lemma ExactUpTo(alpha: real, skew: nat, delay: nat)
    ensures AlwaysExact(alpha, skew, delay) <==> Enough(skew, delay)
  {
    hide Steady, Exact, Enough;
    if !Enough(skew, delay) { FarApartMisses(skew, alpha, skew, delay); }
    forall h, c, at | Steady(h, skew) && ReadSoon(h, c, at, delay) && Enough(skew, delay)
      ensures Exact(h, alpha, c, 1440, at)
    {
      WindowsExact(h, alpha, skew, delay, c, 1440, at);
    }
  }
}
