/** Calls of Touch for one key that run at the same time (sampler/pkg/redis/store.go:62-116): only the MULTI
    block is one step; reading the average, writing it and each window sum are steps of their own, at
    readings of the clock of their own. */
module SamplerInterleavings {
  import opened Options
  import opened SamplerAverages
  import opened SamplerLadders
  import opened SamplerStores

  // ------------------------------------------------------------------ state

  /** A call as far as it has come. */
  datatype Call = Call(
    ts: int, curMin: nat, total: nat, read: Option<real>, ema: Option<real>, win10m: Option<nat>, win1h: Option<nat>,
    win24h: Option<nat>)

  datatype State = State(key: Key, calls: seq<Call>)

  const INIT := State(NEW_KEY, [])

  /** The step a call takes next is the one its place in the program names. */
  datatype Step = Bump(ts: int, now: int) | Go(call: nat, now: int)

  function Went(s: State, c: Call, now: int, alpha: real): (Key, Call) {
    if c.read.None? then (s.key, c.(read := Some(s.key.ema)))
    else if c.ema.None? then
      var e := Averaged(c.curMin, c.read.value, alpha);
      (s.key.(ema := e), c.(ema := Some(e)))
    else if c.win10m.None? then (s.key, c.(win10m := Some(Window(s.key.buckets, Minute(c.ts), 10, now))))
    else if c.win1h.None? then (s.key, c.(win1h := Some(Window(s.key.buckets, Minute(c.ts), 60, now))))
    else if c.win24h.None? then (s.key, c.(win24h := Some(Window(s.key.buckets, Minute(c.ts), 1440, now))))
    else (s.key, c)
  }

  function Next(s: State, step: Step, alpha: real): State {
    match step
    case Bump(ts, now) =>
      var k := Bumped(s.key, now, ts);
      State(k, s.calls + [Call(ts, Value(k.buckets, Minute(ts), now), k.total, None, None, None, None, None)])
    case Go(i, now) =>
      if i < |s.calls| then
        var r := Went(s, s.calls[i], now, alpha);
        State(r.0, s.calls[i := r.1])
      else s
  }

  function Run(s: State, steps: seq<Step>, alpha: real): State {
    if steps == [] then s else Next(Run(s, steps[..|steps| - 1], alpha), steps[|steps| - 1], alpha)
  }

  // -------------------------------------------------------------- what holds

  ghost predicate Fair(c: Call, alpha: real) {
    && c.curMin >= 1
    && (c.read.Some? ==> c.read.value >= 0.0)
    && (c.ema.Some? ==> c.read.Some? && c.ema.value >= alpha * c.curMin as real)
  }

  /** Totals are handed out in turn, each once, and no average misses its own call. */
  ghost predicate Sound(s: State, alpha: real) {
    && s.key.ema >= 0.0 && s.key.total == |s.calls|
    && (forall i | 0 <= i < |s.calls| :: s.calls[i].total == i + 1 && Fair(s.calls[i], alpha))
  }

  lemma WentFair(s: State, c: Call, now: int, alpha: real)
    requires Weight(alpha) && s.key.ema >= 0.0 && Fair(c, alpha)
    ensures var r := Went(s, c, now, alpha);
            r.0.ema >= 0.0 && r.0.total == s.key.total && Fair(r.1, alpha) && r.1.total == c.total
  {
    if c.read.Some? && c.ema.None? { AveragedAtLeast(c.curMin, c.read.value, alpha); }
    hide Averaged, Window, Minute;
  }

  lemma NextSound(s: State, step: Step, alpha: real)
    requires Weight(alpha) && Sound(s, alpha)
    ensures Sound(Next(s, step, alpha), alpha)
  {
    match step
    case Bump(ts, now) => hide Minute;
    case Go(i, now) =>
      if i < |s.calls| {
        WentFair(s, s.calls[i], now, alpha);
        hide Went, Fair;
      }
  }

  lemma {:induction false} RunSound(steps: seq<Step>, alpha: real)
    requires Weight(alpha)
    ensures Sound(Run(INIT, steps, alpha), alpha)
  {
    if steps != [] {
      RunSound(steps[..|steps| - 1], alpha);
      NextSound(Run(INIT, steps[..|steps| - 1], alpha), steps[|steps| - 1], alpha);
      hide Sound, Next;
    }
  }

  // -------------------------------------------------------------- the ladder

  predicate Finished(c: Call) { c.ema.Some? && c.win10m.Some? && c.win1h.Some? && c.win24h.Some? }

  /** What a finished call returned; the ladder does not look at the times. */
  function CountsOfCall(c: Call): Counts
    requires Finished(c)
  {
    Counts(c.curMin, c.win10m.value, c.win1h.value, c.win24h.value, c.total, c.ema.value, 0, 0)
  }

  /** With a steep factor nothing spikes, however the calls interleave. */
  lemma SteepNeverSpikesInterleaved(p: Policy, steps: seq<Step>, alpha: real, i: nat)
    requires Weight(alpha) && Steep(p.spikeFactor, alpha)
    requires i < |Run(INIT, steps, alpha).calls| && Finished(Run(INIT, steps, alpha).calls[i])
    ensures !Spiking(p, CountsOfCall(Run(INIT, steps, alpha).calls[i]))
  {
    RunSound(steps, alpha);
    var c := Run(INIT, steps, alpha).calls[i];
    hide Run;
    assert Fair(c, alpha);
    TooSteep(c.curMin as real, c.ema.value, alpha, p.spikeFactor);
  }

  function AllCounts(calls: seq<Call>): (cs: seq<Counts>)
    requires forall i | 0 <= i < |calls| :: Finished(calls[i])
    ensures |cs| == |calls| && forall i | 0 <= i < |calls| :: cs[i] == CountsOfCall(calls[i])
  {
    seq(|calls|, i requires 0 <= i < |calls| => CountsOfCall(calls[i]))
  }

  /** So the bound on kept events holds in every interleaving. */
  lemma SteepKeepsFewInterleaved(p: Policy, sev: Severity, steps: seq<Step>, alpha: real)
    requires Weight(alpha) && Steep(p.spikeFactor, alpha) && !OnFloor(p, sev)
    requires forall i | 0 <= i < |Run(INIT, steps, alpha).calls| :: Finished(Run(INIT, steps, alpha).calls[i])
    ensures var calls := Run(INIT, steps, alpha).calls; Kept(p, sev, AllCounts(calls)) <= Bound(p, sev, |calls|)
  {
    var calls := Run(INIT, steps, alpha).calls;
    var cs := AllCounts(calls);
    RunSound(steps, alpha);
    forall i | 0 <= i < |calls| ensures cs[i].total == i + 1 && !Spiking(p, cs[i]) {
      SteepNeverSpikesInterleaved(p, steps, alpha, i);
    }
    hide Run, Kept, Spiking, Bound;
    KeptAtMost(p, sev, cs);
  }

  // ---------------------------------------------------------- exact windows

  /** The events counted so far. */
  function Events(steps: seq<Step>): seq<Event> {
    if steps == [] then []
    else
      var last := steps[|steps| - 1];
      Events(steps[..|steps| - 1]) + if last.Bump? then [Event(last.now, last.ts, AtOnce(last.now))] else []
  }

  lemma GoKey(s: State, i: nat, now: int, alpha: real)
    ensures var t := Next(s, Go(i, now), alpha);
            && t.key == s.key.(ema := t.key.ema) && |t.calls| == |s.calls|
            && forall j | 0 <= j < |s.calls| :: t.calls[j].ts == s.calls[j].ts
  {
    hide Window, Averaged, Minute;
  }

  /** The buckets are those of the events in the order of their counting, and call i is of event i. */
  lemma {:induction false} CountedInOrder(steps: seq<Step>, alpha: real)
    ensures var s, h := Run(INIT, steps, alpha), Events(steps);
            && s.key.buckets == SamplerStores.Run(h, alpha).buckets && |s.calls| == |h|
            && forall i | 0 <= i < |h| :: s.calls[i].ts == h[i].ts
  {
    if steps != [] {
      var n := |steps| - 1;
      CountedInOrder(steps[..n], alpha);
      var s, h := Run(INIT, steps[..n], alpha), Events(steps[..n]);
      match steps[n]
      case Bump(ts, now) =>
        assert (h + [Event(now, ts, AtOnce(now))])[..|h|] == h;
        hide Averaged, Minute, Value;
      case Go(i, now) =>
        GoKey(s, i, now, alpha);
        assert Events(steps) == h;
        hide Next;
    }
  }

  /** In every interleaving, with a steady clock, a window that call i sums soon enough is the number of the
      events counted so far in its minutes. */
  lemma WindowsExactInterleaved(steps: seq<Step>, alpha: real, skew: nat, delay: nat, i: nat, span: nat, at: int)
    requires Steady(Events(steps), skew) && Enough(skew, delay) && span <= 1440
    requires ReadSoon(Events(steps), i, at, delay)
    ensures var s := Run(INIT, steps, alpha);
            && i < |s.calls|
            && var m := Minute(s.calls[i].ts);
               Window(s.key.buckets, m, span, at) == Count(Events(steps), m - span, m)
  {
    CountedInOrder(steps, alpha);
    WindowsExact(Events(steps), alpha, skew, delay, i, span, at);
    hide Run, Steady, Window, Count, Minute;
  }

  /** The sums a call makes, one after the other, are those of its windows: ten minutes, an hour, a day. */
  lemma SumsInTurn(steps: seq<Step>, alpha: real, skew: nat, delay: nat, i: nat, at: int)
    requires Steady(Events(steps), skew) && Enough(skew, delay) && ReadSoon(Events(steps), i, at, delay)
    ensures var s := Run(INIT, steps, alpha);
            && i < |s.calls|
            && var c, d, m, h := s.calls[i], Next(s, Go(i, at), alpha).calls[i], Minute(s.calls[i].ts), Events(steps);
               c.read.Some? && c.ema.Some? ==>
                 && (c.win10m.None? ==> d.win10m == Some(Count(h, m - 10, m)))
                 && (c.win10m.Some? && c.win1h.None? ==> d.win1h == Some(Count(h, m - 60, m)))
                 && (c.win10m.Some? && c.win1h.Some? && c.win24h.None? ==> d.win24h == Some(Count(h, m - 1440, m)))
  {
    WindowsExactInterleaved(steps, alpha, skew, delay, i, 10, at);
    WindowsExactInterleaved(steps, alpha, skew, delay, i, 60, at);
    WindowsExactInterleaved(steps, alpha, skew, delay, i, 1440, at);
    hide Run, Steady, Window, Count, Minute, Averaged, Events;
  }

  // ------------------------------------------------------- windows and totals

  /** A schedule: calls come in, and calls take their next step. */
  datatype Move = Enter | Advance(call: nat)

  function MadeBy(made: seq<nat>, move: Move): seq<nat> {
    match move
    case Enter => made + [0]
    case Advance(i) => if i < |made| then made[i := made[i] + 1] else made
  }

  /** How many of its five steps each call has made, and more if it is called upon more often. */
  function Made(ms: seq<Move>): seq<nat> {
    if ms == [] then []
    else MadeBy(Made(ms[..|ms| - 1]), ms[|ms| - 1])
  }

  const STEPS := 5

  ghost predicate AllMade(made: seq<nat>) { forall i | 0 <= i < |made| :: made[i] >= STEPS }

  /** Every call that comes in finds the earlier ones done. */
  ghost predicate Serial(ms: seq<Move>) {
    forall n | 0 <= n < |ms| && ms[n].Enter? :: AllMade(Made(ms[..n]))
  }

  /** The steps of a schedule, each with an event time and a reading of the clock of its own. */
  function Timed(ms: seq<Move>, ts: nat -> int, now: nat -> int): (steps: seq<Step>)
    ensures |steps| == |ms|
  {
    if ms == [] then []
    else
      var n := |ms| - 1;
      Timed(ms[..n], ts, now)
      + [match ms[n] case Enter => Bump(ts(n), now(n)) case Advance(i) => Go(i, now(n))]
  }

  function Played(ms: seq<Move>, ts: nat -> int, now: nat -> int, alpha: real): State {
    Run(INIT, Timed(ms, ts, now), alpha)
  }

  lemma PlayedMore(ms: seq<Move>, ts: nat -> int, now: nat -> int, alpha: real)
    requires ms != []
    ensures var n := |ms| - 1;
            Played(ms, ts, now, alpha) == Next(Played(ms[..n], ts, now, alpha), Timed(ms, ts, now)[n], alpha)
    ensures var n := |ms| - 1;
            Timed(ms, ts, now)[n] == match ms[n] case Enter => Bump(ts(n), now(n)) case Advance(i) => Go(i, now(n))
  {
    var n := |ms| - 1;
    assert Timed(ms, ts, now)[..n] == Timed(ms[..n], ts, now);
  }

  /** A call has as many of its fields as it has made steps. */
  predicate Along(c: Call, made: nat) {
    && (c.read.Some? <==> made >= 1) && (c.ema.Some? <==> made >= 2) && (c.win10m.Some? <==> made >= 3)
    && (c.win1h.Some? <==> made >= 4) && (c.win24h.Some? <==> made >= 5)
  }

  ghost predicate InStep(s: State, made: seq<nat>) {
    |s.calls| == |made| && forall i | 0 <= i < |made| :: s.calls[i].total == i + 1 && Along(s.calls[i], made[i])
  }

  predicate Below(w: Option<nat>, total: nat) { w.Some? ==> w.value <= total }

  /** No window of the call holds more events than its total. */
  predicate WindowsBelow(c: Call) {
    Below(c.win10m, c.total) && Below(c.win1h, c.total) && Below(c.win24h, c.total)
  }

  ghost predicate AllBelow(calls: seq<Call>) { forall i | 0 <= i < |calls| :: WindowsBelow(calls[i]) }

  /** All its events are counted in the total, and no bucket has more than its own. */
  ghost predicate Accounted(s: State) {
    s.key.total == |s.calls| && exists h: seq<Event> :: |h| == |s.calls| && Tallied(h, s.key)
  }

  lemma WindowBelow(s: State, m: int, span: nat, now: int)
    requires Accounted(s)
    ensures Window(s.key.buckets, m, span, now) <= |s.calls|
  {
    var h: seq<Event> :| |h| == |s.calls| && Tallied(h, s.key);
    SumBelow(h, s.key, m - span, m, now);
    CountAll(h, m - span, m);
  }

  lemma WentAlong(s: State, c: Call, now: int, alpha: real, made: nat)
    requires Along(c, made)
    ensures Along(Went(s, c, now, alpha).1, made + 1) && Went(s, c, now, alpha).1.total == c.total
    ensures made >= STEPS ==> Went(s, c, now, alpha) == (s.key, c)
  {
    hide Window, Averaged, Minute;
  }

  lemma WentBelow(s: State, c: Call, now: int, alpha: real)
    requires Accounted(s) && WindowsBelow(c) && c.total == |s.calls|
    ensures WindowsBelow(Went(s, c, now, alpha).1)
  {
    WindowBelow(s, Minute(c.ts), 10, now);
    WindowBelow(s, Minute(c.ts), 60, now);
    WindowBelow(s, Minute(c.ts), 1440, now);
    hide Window, Averaged, Minute, Accounted;
  }

  lemma EnterAccounted(s: State, ts: int, now: int, alpha: real)
    requires Accounted(s)
    ensures Accounted(Next(s, Bump(ts, now), alpha))
  {
    var h: seq<Event> :| |h| == |s.calls| && Tallied(h, s.key);
    BumpTallied(h, s.key, Event(now, ts, AtOnce(now)));
    hide Tallied, Minute, Value;
    assert |h + [Event(now, ts, AtOnce(now))]| == |s.calls| + 1;
  }

  lemma GoAccounted(s: State, i: nat, now: int, alpha: real)
    requires Accounted(s)
    ensures Accounted(Next(s, Go(i, now), alpha))
  {
    GoKey(s, i, now, alpha);
    var h: seq<Event> :| |h| == |s.calls| && Tallied(h, s.key);
    hide Next, Count, Minute;
    assert Tallied(h, Next(s, Go(i, now), alpha).key);
  }

  lemma EnterInStep(s: State, made: seq<nat>, ts: int, now: int, alpha: real)
    requires InStep(s, made) && Accounted(s)
    ensures InStep(Next(s, Bump(ts, now), alpha), made + [0])
  {
    hide Minute, Value, Tallied;
  }

  lemma GoInStep(s: State, made: seq<nat>, i: nat, now: int, alpha: real)
    requires InStep(s, made)
    ensures InStep(Next(s, Go(i, now), alpha), if i < |made| then made[i := made[i] + 1] else made)
  {
    if i < |s.calls| { WentAlong(s, s.calls[i], now, alpha, made[i]); }
    hide Went, Along;
  }

  lemma {:induction false} PlayedInStep(ms: seq<Move>, ts: nat -> int, now: nat -> int, alpha: real)
    ensures var s := Played(ms, ts, now, alpha); InStep(s, Made(ms)) && Accounted(s)
  {
    if ms == [] {
      var h: seq<Event> := [];
      assert Tallied(h, NEW_KEY);
    } else {
      var n := |ms| - 1;
      PlayedInStep(ms[..n], ts, now, alpha);
      PlayedMore(ms, ts, now, alpha);
      var s, made := Played(ms[..n], ts, now, alpha), Made(ms[..n]);
      assert Made(ms) == MadeBy(made, ms[n]);
      hide Played, Timed, Accounted, Next, InStep, Made;
      match ms[n]
      case Enter =>
        EnterAccounted(s, ts(n), now(n), alpha);
        EnterInStep(s, made, ts(n), now(n), alpha);
      case Advance(i) =>
        GoAccounted(s, i, now(n), alpha);
        GoInStep(s, made, i, now(n), alpha);
    }
  }

  /** The move sums no window, or it is the latest call that does. */
  predicate Unhurried(made: seq<nat>, move: Move) {
    move.Advance? && move.call < |made| && 2 <= made[move.call] < STEPS ==> move.call == |made| - 1
  }

  /** No call sums a window after another one has come in. */
  ghost predicate Apart(ms: seq<Move>) {
    forall n | 0 <= n < |ms| :: Unhurried(Made(ms[..n]), ms[n])
  }

  lemma ApartBefore(ms: seq<Move>)
    requires Apart(ms) && ms != []
    ensures Apart(ms[..|ms| - 1]) && Unhurried(Made(ms[..|ms| - 1]), ms[|ms| - 1])
  {
    var before := ms[..|ms| - 1];
    hide Unhurried, Made;
    forall n | 0 <= n < |before| ensures Unhurried(Made(before[..n]), before[n]) {
      assert before[..n] == ms[..n];
    }
  }

  lemma GoBelow(s: State, i: nat, now: int, alpha: real, made: seq<nat>)
    requires InStep(s, made) && Accounted(s) && AllBelow(s.calls) && Unhurried(made, Advance(i)) && i < |s.calls|
    ensures WindowsBelow(Went(s, s.calls[i], now, alpha).1)
  {
    if i == |s.calls| - 1 {
      assert s.calls[i].total == |s.calls|;
      WentBelow(s, s.calls[i], now, alpha);
    } else {
      assert Along(s.calls[i], made[i]) && WindowsBelow(s.calls[i]);
      hide Accounted, Window, Averaged, Minute;
    }
  }

  lemma StepBelow(s: State, move: Move, step: Step, alpha: real, made: seq<nat>)
    requires InStep(s, made) && Accounted(s) && AllBelow(s.calls) && Unhurried(made, move)
    requires match move case Enter => step.Bump? case Advance(i) => step.Go? && step.call == i
    ensures AllBelow(Next(s, step, alpha).calls)
  {
    match step
    case Bump(ts, now) => hide Minute, Value, Accounted, InStep;
    case Go(i, now) =>
      if i < |s.calls| {
        GoBelow(s, i, now, alpha, made);
        hide Went, WindowsBelow, Accounted, InStep;
      }
  }

  lemma {:induction false} ApartBelow(ms: seq<Move>, ts: nat -> int, now: nat -> int, alpha: real)
    requires Apart(ms)
    ensures AllBelow(Played(ms, ts, now, alpha).calls)
  {
    if ms != [] {
      var n := |ms| - 1;
      ApartBefore(ms);
      ApartBelow(ms[..n], ts, now, alpha);
      PlayedInStep(ms[..n], ts, now, alpha);
      PlayedMore(ms, ts, now, alpha);
      hide Played, Timed, InStep, Accounted, AllBelow, Unhurried, Next;
      StepBelow(Played(ms[..n], ts, now, alpha), ms[n], Timed(ms, ts, now)[n], alpha, Made(ms[..n]));
    }
  }

  lemma {:induction false} EmptyBuckets(buckets: map<int, Bucket>, from: int, upto: int, now: int)
    requires forall m | m in buckets :: !(from <= m <= upto)
    ensures Sum(buckets, from, upto, now) == 0
    decreases upto - from
  {
    if from <= upto { EmptyBuckets(buckets, from, upto - 1, now); }
  }

  /** All times are zero: every call counts in one bucket. */
  ghost predicate AtZero(s: State) {
    && s.key.buckets == (if s.calls == [] then map[] else map[0 := Bucket(|s.calls|, TTL)])
    && forall i | 0 <= i < |s.calls| :: s.calls[i].ts == 0
  }

  lemma ZeroWindow(s: State, span: nat)
    requires AtZero(s) && s.calls != []
    ensures Window(s.key.buckets, Minute(0), span, 0) == |s.calls|
  {
    EmptyBuckets(s.key.buckets, 0 - span, -1, 0);
    assert Value(s.key.buckets, 0, 0) == |s.calls|;
    assert Minute(0) == 0;
  }

  lemma ZeroEnter(s: State, alpha: real)
    requires AtZero(s)
    ensures AtZero(Next(s, Bump(0, 0), alpha))
  {
    assert Minute(0) == 0;
    hide Minute;
    assert s.calls != [] ==> Value(s.key.buckets, 0, 0) == |s.calls|;
  }

  lemma ZeroGo(s: State, i: nat, alpha: real)
    requires AtZero(s)
    ensures AtZero(Next(s, Go(i, 0), alpha))
  {
    GoKey(s, i, 0, alpha);
    hide Window, Minute, Averaged;
  }

  function Zero(n: nat): int { 0 }

  lemma {:induction false} PlayedAtZero(ms: seq<Move>, alpha: real)
    ensures AtZero(Played(ms, Zero, Zero, alpha))
  {
    if ms != [] {
      var n := |ms| - 1;
      PlayedAtZero(ms[..n], alpha);
      PlayedMore(ms, Zero, Zero, alpha);
      hide Played, Timed, AtZero, Next;
      match ms[n]
      case Enter => ZeroEnter(Played(ms[..n], Zero, Zero, alpha), alpha);
      case Advance(i) => ZeroGo(Played(ms[..n], Zero, Zero, alpha), i, alpha);
    }
  }

  /** A call that is not the latest sums too much. */
  lemma HurriedAbove(s: State, i: nat, alpha: real, made: seq<nat>)
    requires InStep(s, made) && AtZero(s) && !Unhurried(made, Advance(i))
    ensures var c := Went(s, s.calls[i], 0, alpha).1; !WindowsBelow(c)
  {
    assert s.calls[i].ts == 0 && Along(s.calls[i], made[i]) && s.calls[i].total == i + 1;
    ZeroWindow(s, 10);
    ZeroWindow(s, 60);
    ZeroWindow(s, 1440);
    hide Window, Minute, Averaged;
  }

  /** What a call has summed stays as it is. */
  lemma AboveStays(s: State, step: Step, alpha: real)
    requires !AllBelow(s.calls)
    ensures !AllBelow(Next(s, step, alpha).calls)
  {
    var i :| 0 <= i < |s.calls| && !WindowsBelow(s.calls[i]);
    assert !WindowsBelow(Next(s, step, alpha).calls[i]) by {
      hide Window, Minute, Averaged, Bumped, Value;
    }
    hide Next;
  }

  lemma {:induction false} HurriedEnds(ms: seq<Move>, n: nat, alpha: real)
    requires n < |ms| && !Unhurried(Made(ms[..n]), ms[n])
    ensures !AllBelow(Played(ms, Zero, Zero, alpha).calls)
  {
    var l := |ms| - 1;
    PlayedMore(ms, Zero, Zero, alpha);
    var s := Played(ms[..l], Zero, Zero, alpha);
    hide Played, AllBelow;
    if n < l {
      assert ms[..l][..n] == ms[..n];
      hide Made, Timed, Unhurried, Next;
      HurriedEnds(ms[..l], n, alpha);
      AboveStays(s, Timed(ms, Zero, Zero)[l], alpha);
    } else {
      var i := ms[l].call;
      PlayedInStep(ms[..l], Zero, Zero, alpha);
      PlayedAtZero(ms[..l], alpha);
      assert Timed(ms, Zero, Zero)[l] == Go(i, 0);
      hide Timed, Made;
      HurriedStep(s, i, alpha, Made(ms[..l]));
    }
  }

  lemma HurriedStep(s: State, i: nat, alpha: real, made: seq<nat>)
    requires InStep(s, made) && AtZero(s) && !Unhurried(made, Advance(i))
    ensures !AllBelow(Next(s, Go(i, 0), alpha).calls)
  {
    HurriedAbove(s, i, alpha, made);
    hide Went, WindowsBelow, AtZero, InStep;
    assert !WindowsBelow(Next(s, Go(i, 0), alpha).calls[i]);
  }

  /** Whatever the times of the events and the readings of the clock. */
  ghost predicate NeverAbove(ms: seq<Move>, alpha: real) {
    forall ts, now :: AllBelow(Played(ms, ts, now, alpha).calls)
  }

  /** Windows stay within the total, whatever the times, exactly on the schedules on which no call sums a
      window after another one has come in. */
  lemma TotalsCapWindowsExactly(ms: seq<Move>, alpha: real)
    ensures NeverAbove(ms, alpha) <==> Apart(ms)
  {
    hide AllBelow, Played;
    if Apart(ms) {
      forall ts, now ensures AllBelow(Played(ms, ts, now, alpha).calls) { ApartBelow(ms, ts, now, alpha); }
    } else {
      var n :| 0 <= n < |ms| && !Unhurried(Made(ms[..n]), ms[n]);
      HurriedEnds(ms, n, alpha);
    }
  }

  // ------------------------------------------------------- one after the other

  lemma {:induction false} MadeGrows(ms: seq<Move>, n: nat)
    requires n <= |ms|
    ensures |Made(ms[..n])| <= |Made(ms)|
    ensures forall i | 0 <= i < |Made(ms[..n])| :: Made(ms[..n])[i] <= Made(ms)[i]
  {
    if n < |ms| {
      MadeGrows(ms[..|ms| - 1], n);
      assert ms[..|ms| - 1][..n] == ms[..n];
    } else {
      assert ms[..n] == ms;
    }
  }

  /** A call that came in behind call i did so at a move of its own. */
  lemma {:induction false} CameIn(ms: seq<Move>, i: nat) returns (n: nat)
    requires i < |Made(ms)|
    ensures n < |ms| && ms[n].Enter? && |Made(ms[..n])| == i
  {
    n := |ms| - 1;
    if ms[n].Advance? || |Made(ms[..n])| != i {
      var l := n;
      n := CameIn(ms[..l], i);
      assert ms[..l][..n] == ms[..n];
    }
  }

  lemma SerialIsApart(ms: seq<Move>)
    requires Serial(ms)
    ensures Apart(ms)
  {
    forall n | 0 <= n < |ms| ensures Unhurried(Made(ms[..n]), ms[n]) {
      var made := Made(ms[..n]);
      if ms[n].Advance? && ms[n].call < |made| - 1 {
        var i := ms[n].call;
        var l := CameIn(ms[..n], i + 1);
        assert ms[..n][..l] == ms[..l] && ms[l].Enter?;
        assert AllMade(Made(ms[..l]));
        MadeGrows(ms[..n], l);
        assert Made(ms[..l])[i] <= made[i];
      }
    }
  }

  /** The move by which call i makes its last step. */
  lemma {:induction false} LastStep(ms: seq<Move>, l: nat, i: nat) returns (n: nat)
    requires l <= |ms| && i < |Made(ms[..l])| && Made(ms[..l])[i] < STEPS
    requires i < |Made(ms)| && Made(ms)[i] >= STEPS
    ensures l <= n < |ms| && ms[n] == Advance(i) && i < |Made(ms[..n])| && Made(ms[..n])[i] == STEPS - 1
  {
    assert ms[..|ms|] == ms;
    n := |ms| - 1;
    MadeGrows(ms[..n], l);
    assert ms[..n][..l] == ms[..l];
    if Made(ms[..n])[i] >= STEPS {
      var k := n;
      n := LastStep(ms[..k], l, i);
      assert ms[..k][..n] == ms[..n];
    }
  }

  lemma ApartIsSerial(ms: seq<Move>)
    requires Apart(ms) && AllMade(Made(ms))
    ensures Serial(ms)
  {
    forall l | 0 <= l < |ms| && ms[l].Enter? ensures AllMade(Made(ms[..l])) {
      forall i | 0 <= i < |Made(ms[..l])| ensures Made(ms[..l])[i] >= STEPS {
        if Made(ms[..l])[i] < STEPS { EntersTooSoon(ms, l, i); }
      }
    }
  }

  lemma EntersTooSoon(ms: seq<Move>, l: nat, i: nat)
    requires AllMade(Made(ms)) && l < |ms| && ms[l].Enter?
    requires i < |Made(ms[..l])| && Made(ms[..l])[i] < STEPS
    ensures !Apart(ms)
  {
    MadeGrows(ms, l);
    assert ms[..l + 1][..l] == ms[..l];
    assert Made(ms[..l + 1]) == Made(ms[..l]) + [0];
    var n := LastStep(ms, l + 1, i);
    MadeGrows(ms[..n], l + 1);
    assert ms[..n][..l + 1] == ms[..l + 1];
    assert !Unhurried(Made(ms[..n]), ms[n]);
  }

  /** If all calls come to their end, these are the schedules on which a call that comes in finds the
      earlier ones done. */
  lemma TotalsCapWindowsWhenSerial(ms: seq<Move>, alpha: real)
    requires AllMade(Made(ms))
    ensures NeverAbove(ms, alpha) <==> Serial(ms)
  {
    hide NeverAbove, Apart, Serial;
    TotalsCapWindowsExactly(ms, alpha);
    if Apart(ms) { ApartIsSerial(ms); }
    if Serial(ms) { SerialIsApart(ms); }
  }

  /** A second event of the minute comes in before the first call has summed its windows. */
  function Overtaking(): seq<Step> { [Bump(0, 0), Go(0, 0), Go(0, 0), Bump(0, 0), Go(0, 0)] }

  lemma RunAt(n: nat, alpha: real)
    requires 0 < n <= 5
    ensures Run(INIT, Overtaking()[..n], alpha)
         == Next(Run(INIT, Overtaking()[..n - 1], alpha), Overtaking()[n - 1], alpha)
  {
    assert Overtaking()[..n][..n - 1] == Overtaking()[..n - 1];
  }

  lemma FirstThree(alpha: real)
    ensures var s := Run(INIT, Overtaking()[..3], alpha);
            && |s.calls| == 1 && s.calls[0].ts == 0 && s.calls[0].total == 1
            && s.calls[0].read.Some? && s.calls[0].ema.Some? && s.calls[0].win10m.None?
            && s.key.buckets == map[0 := Bucket(1, TTL)]
  {
    RunAt(1, alpha);
    RunAt(2, alpha);
    RunAt(3, alpha);
    assert Overtaking()[..0] == [] && Minute(0) == 0;
    hide Run, Averaged, Minute;
  }

  /** With calls that interleave, a window can hold more events than the total says. */
  lemma WindowOvertakesTotal(alpha: real)
    ensures var calls := Run(INIT, Overtaking(), alpha).calls;
            |calls| == 2 && calls[0].win10m == Some(2) && calls[0].total == 1
  {
    FirstThree(alpha);
    RunAt(4, alpha);
    RunAt(5, alpha);
    assert Overtaking()[..5] == Overtaking() && Minute(0) == 0;
    var s := Run(INIT, Overtaking()[..4], alpha);
    hide Run, Averaged, Minute;
    assert s.key.buckets == map[0 := Bucket(2, TTL)];
    EmptyBuckets(s.key.buckets, -10, -1, 0);
    assert Window(s.key.buckets, 0, 10, 0) == 2;
  }
}
