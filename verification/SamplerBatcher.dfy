/** The batcher in front of the sampler (gateway/pkg/sampler/batcher.go:74-178): it has every record
    decided and routes it to the kept or to the suppressed side. */
module SamplerBatchers {
  import opened Breakers
  import opened GatewayTypes
  import opened GoStrings
  import opened Options
  import opened SamplerClients

  // ------------------------------------------------------------ enforcement

  datatype Enforcement = Enforcement(debug: bool, info: bool, warn: bool, error: bool, byNamespace: map<string, bool>)

  predicate BySeverity(e: Enforcement, severity: string) {
    var s := ToLower(severity);
    || (s == "debug" && e.debug) || (s == "info" && e.info) || ((s == "warn" || s == "warning") && e.warn)
    || (s == "error" && e.error) || s == "fatal"
  }

  /** A namespace can only add to what the severities enforce. */
  predicate Enforces(e: Enforcement, labels: map<string, string>, severity: string) {
    BySeverity(e, severity)
    || ("k8s_namespace" in labels && labels["k8s_namespace"] in e.byNamespace && e.byNamespace[labels["k8s_namespace"]])
  }

  predicate Enforced(e: Enforcement, r: Record) { Enforces(e, r.normalized.labels, r.normalized.schema) }

  function SeverityOf(r: Record): string { ToLower(r.normalized.schema) }

  /** The promise of the configuration: a severity has a flag of its own, and fatal needs none. */
  predicate Flagged(e: Enforcement, r: Record) {
    || SeverityOf(r) == "fatal"
    || (SeverityOf(r) == "debug" && e.debug)
    || (SeverityOf(r) == "info" && e.info)
    || (SeverityOf(r) in {"warn", "warning"} && e.warn)
    || (SeverityOf(r) == "error" && e.error)
  }

  /** Its namespace is set to be enforced. */
  predicate NamespaceSet(e: Enforcement, r: Record) {
    var labels := r.normalized.labels;
    "k8s_namespace" in labels && labels["k8s_namespace"] in e.byNamespace && e.byNamespace[labels["k8s_namespace"]]
  }

  lemma EnforcedExactly(e: Enforcement, r: Record)
    ensures Enforced(e, r) <==> Flagged(e, r) || NamespaceSet(e, r)
  {
    hide ToLower;
  }

  // ---------------------------------------------------------------- routing

  /** A record on its way out; an unenforced one is marked as a shadow. */
  datatype Routed = Routed(record: Record, decision: Decision)

  predicate Suppresses(e: Enforcement, r: Record, d: Decision) { Enforced(e, r) && d.action == Suppress }

  function Route(e: Enforcement, r: Record, d: Decision): Routed {
    Routed(if Enforced(e, r) then r else r.(shadow := true), d)
  }

  /** at: when the batch was flushed, and when its RPC, if any, was over. */
  datatype Flight = Flight(batch: seq<Record>, open: bool, answer: Answer, at: Attempt)

  /** A batch with its decisions, in order. */
  function Decided(f: Flight): (ds: seq<Decision>)
    ensures |ds| == |f.batch|
    ensures forall i | 0 <= i < |ds| :: ds[i] == DecisionAt(i, |f.batch|, f.open, f.answer)
  {
    seq(|f.batch|, i requires 0 <= i < |f.batch| => DecisionAt(i, |f.batch|, f.open, f.answer))
  }

  /** The records that go to one of the two sides. */
  function Side(e: Enforcement, rs: seq<Record>, ds: seq<Decision>, suppressed: bool): seq<Routed>
    requires |rs| == |ds|
  {
    if rs == [] then []
    else
      var n := |rs| - 1;
      Side(e, rs[..n], ds[..n], suppressed)
      + if Suppresses(e, rs[n], ds[n]) == suppressed then [Route(e, rs[n], ds[n])] else []
  }

  // ---------------------------------------------------------------- machine

  datatype Config = Config(maxBatch: int, enforcement: Enforcement)

  /** What the environment does in one turn: the clock before and after, and the sampler. */
  datatype World = World(now: int, later: int, rpc: seq<DecisionRequest> -> Answer)

  datatype Signal = Stop | Closed | Received(record: Record) | Tick

  /** received and flights record what the program does not. */
  datatype State = State(
    buf: seq<Record>, kept: seq<Routed>, suppressed: seq<Routed>, history: seq<Call>, stopped: bool,
    received: seq<Record>, flights: seq<Flight>)

  const INIT := State([], [], [], [], false, [], [])

  ghost function FlightOf(s: State, w: World): Flight {
    Flight(s.buf, IsOpen(s.history, w.now), w.rpc(Requests(s.buf)), Attempt(w.now, w.later))
  }

  ghost function Flushed(c: Config, s: State, w: World): State {
    if s.buf == [] then s
    else
      var f := FlightOf(s, w);
      s.(buf := [],
         kept := s.kept + Side(c.enforcement, f.batch, Decided(f), false),
         suppressed := s.suppressed + Side(c.enforcement, f.batch, Decided(f), true),
         history := Called(s.history, |s.buf|, w.now, w.later, f.answer),
         flights := s.flights + [f])
  }

  function Took(s: State, r: Record): State { s.(buf := s.buf + [r], received := s.received + [r]) }

  ghost function Next(c: Config, s: State, signal: Signal, w: World): State {
    if s.stopped then s
    else
      match signal
      case Stop => Flushed(c, s, w).(stopped := true)
      case Closed => Flushed(c, s, w).(stopped := true)
      case Received(r) => if |s.buf| + 1 >= c.maxBatch then Flushed(c, Took(s, r), w) else Took(s, r)
      case Tick => Flushed(c, s, w)
  }

  ghost function Run(c: Config, s: State, signals: seq<Signal>, worlds: nat -> World): State {
    if signals == [] then s
    else
      var n := |signals| - 1;
      Next(c, Run(c, s, signals[..n], worlds), signals[n], worlds(n))
  }

  // ------------------------------------------------------------- invariants

  function Batches(flights: seq<Flight>): seq<Record> {
    if flights == [] then [] else Batches(flights[..|flights| - 1]) + flights[|flights| - 1].batch
  }

  function Decisions(flights: seq<Flight>): (ds: seq<Decision>)
    ensures |ds| == |Batches(flights)|
  {
    if flights == [] then [] else Decisions(flights[..|flights| - 1]) + Decided(flights[|flights| - 1])
  }

  /** Both sides together are the received records in order, each on the side its own decision names. */
  ghost predicate Sound(c: Config, s: State) {
    && Batches(s.flights) + s.buf == s.received
    && s.kept == Side(c.enforcement, Batches(s.flights), Decisions(s.flights), false)
    && s.suppressed == Side(c.enforcement, Batches(s.flights), Decisions(s.flights), true)
    && |s.buf| < AtLeastOne(c.maxBatch)
    && (forall i | 0 <= i < |s.flights| :: 1 <= |s.flights[i].batch| <= AtLeastOne(c.maxBatch))
    && (s.stopped ==> s.buf == [])
  }

  lemma {:induction false} SideJoin(e: Enforcement, rs: seq<Record>, ds: seq<Decision>,
                                    qs: seq<Record>, cs: seq<Decision>, side: bool)
    requires |rs| == |ds| && |qs| == |cs|
    ensures Side(e, rs + qs, ds + cs, side) == Side(e, rs, ds, side) + Side(e, qs, cs, side)
  {
    if qs == [] {
      assert rs + qs == rs && ds + cs == ds;
    } else {
      var n := |qs| - 1;
      SideJoin(e, rs, ds, qs[..n], cs[..n], side);
      assert (rs + qs)[..|rs| + n] == rs + qs[..n] && (ds + cs)[..|rs| + n] == ds + cs[..n];
      hide Suppresses, Route;
    }
  }

  lemma FlushKeeps(c: Config, s: State, w: World)
    requires Batches(s.flights) + s.buf == s.received
    requires s.kept == Side(c.enforcement, Batches(s.flights), Decisions(s.flights), false)
    requires s.suppressed == Side(c.enforcement, Batches(s.flights), Decisions(s.flights), true)
    requires |s.buf| <= AtLeastOne(c.maxBatch) && !s.stopped
    requires forall i | 0 <= i < |s.flights| :: 1 <= |s.flights[i].batch| <= AtLeastOne(c.maxBatch)
    ensures Sound(c, Flushed(c, s, w)) && Flushed(c, s, w).buf == []
  {
    if s.buf != [] {
      var f, t := FlightOf(s, w), Flushed(c, s, w);
      assert t.flights[..|t.flights| - 1] == s.flights;
      SideJoin(c.enforcement, Batches(s.flights), Decisions(s.flights), f.batch, Decided(f), false);
      SideJoin(c.enforcement, Batches(s.flights), Decisions(s.flights), f.batch, Decided(f), true);
      assert Batches(t.flights) == Batches(s.flights) + f.batch;
      assert Decisions(t.flights) == Decisions(s.flights) + Decided(f);
      assert Batches(s.flights) + s.buf + [] == Batches(s.flights) + s.buf;
      hide Side, Decided, Called;
    }
  }

  lemma NextKeeps(c: Config, s: State, signal: Signal, w: World)
    requires Sound(c, s)
    ensures Sound(c, Next(c, s, signal, w))
  {
    hide Side, Batches, Decisions, Flushed;
    if !s.stopped {
      match signal
      case Received(r) =>
        assert Batches(s.flights) + (s.buf + [r]) == Batches(s.flights) + s.buf + [r];
        if |s.buf| + 1 >= c.maxBatch { FlushKeeps(c, Took(s, r), w); }
      case _ => FlushKeeps(c, s, w);
    }
  }

  /** Over any run, any clock and any sampler. */
  lemma {:induction false} RunSound(c: Config, signals: seq<Signal>, worlds: nat -> World)
    ensures Sound(c, Run(c, INIT, signals, worlds))
    ensures var s := Run(c, INIT, signals, worlds); s.stopped ==> Batches(s.flights) == s.received
  {
    var s := Run(c, INIT, signals, worlds);
    if signals != [] {
      var n := |signals| - 1;
      RunSound(c, signals[..n], worlds);
      NextKeeps(c, Run(c, INIT, signals[..n], worlds), signals[n], worlds(n));
    }
    assert s.stopped ==> Batches(s.flights) + s.buf == Batches(s.flights);
    hide Next;
  }

  lemma {:induction false} SidesSum(e: Enforcement, rs: seq<Record>, ds: seq<Decision>)
    requires |rs| == |ds|
    ensures |Side(e, rs, ds, false)| + |Side(e, rs, ds, true)| == |rs|
  {
    if rs != [] { SidesSum(e, rs[..|rs| - 1], ds[..|rs| - 1]); }
    hide Suppresses, Route;
  }

  /** No record is lost or doubled. */
  lemma RunConserves(c: Config, signals: seq<Signal>, worlds: nat -> World)
    ensures var s := Run(c, INIT, signals, worlds); |s.kept| + |s.suppressed| + |s.buf| == |s.received|
  {
    var s := Run(c, INIT, signals, worlds);
    RunSound(c, signals, worlds);
    SidesSum(c.enforcement, Batches(s.flights), Decisions(s.flights));
    hide Run, Side;
  }

  /** What the suppressed side may hold of a batch. */
  ghost predicate Justified(e: Enforcement, f: Flight, i: nat, x: Routed)
    requires i < |f.batch|
  {
    && x.record == f.batch[i] && (Flagged(e, f.batch[i]) || NamespaceSet(e, f.batch[i]))
    && !f.open && Usable(f.answer, |f.batch|) && x.decision.action == Suppress
    && exists j :: LastDecision(f.answer.items, i, j) && f.answer.items[j] == Some(x.decision)
  }

  lemma {:induction false} SideFrom(e: Enforcement, rs: seq<Record>, ds: seq<Decision>, side: bool, x: Routed)
    requires |rs| == |ds| && x in Side(e, rs, ds, side)
    ensures exists i :: 0 <= i < |rs| && Suppresses(e, rs[i], ds[i]) == side && x == Route(e, rs[i], ds[i])
  {
    hide Suppresses, Route;
    var n := |rs| - 1;
    if x in Side(e, rs[..n], ds[..n], side) {
      SideFrom(e, rs[..n], ds[..n], side, x);
      var i :| 0 <= i < n && Suppresses(e, rs[..n][i], ds[..n][i]) == side && x == Route(e, rs[..n][i], ds[..n][i]);
      assert Suppresses(e, rs[i], ds[i]) == side && x == Route(e, rs[i], ds[i]);
    } else {
      assert Suppresses(e, rs[n], ds[n]) == side;
    }
  }

  /** A kept record is marked as a shadow exactly if it was not enforced, or marked before; one that the
      sampler wanted suppressed is kept as a shadow only. */
  lemma RunShadows(c: Config, signals: seq<Signal>, worlds: nat -> World, x: Routed)
    requires x in Run(c, INIT, signals, worlds).kept
    ensures var rs := Run(c, INIT, signals, worlds).received;
            exists k :: 0 <= k < |rs| && x.record == rs[k].(shadow := rs[k].shadow
                          || !(Flagged(c.enforcement, rs[k]) || NamespaceSet(c.enforcement, rs[k])))
    ensures x.decision.action == Suppress ==> x.record.shadow
  {
    var s := Run(c, INIT, signals, worlds);
    RunSound(c, signals, worlds);
    hide Run, Side, Enforced;
    var rs, ds := Batches(s.flights), Decisions(s.flights);
    SideFrom(c.enforcement, rs, ds, false, x);
    var k :| 0 <= k < |rs|
             && Suppresses(c.enforcement, rs[k], ds[k]) == false && x == Route(c.enforcement, rs[k], ds[k]);
    assert s.received[k] == rs[k];
    EnforcedExactly(c.enforcement, rs[k]);
    hide Flagged, NamespaceSet;
  }

  lemma {:induction false} DecisionFrom(flights: seq<Flight>, k: nat)
    requires k < |Batches(flights)|
    ensures exists g, i :: 0 <= g < |flights| && 0 <= i < |flights[g].batch|
                           && Batches(flights)[k] == flights[g].batch[i]
                           && Decisions(flights)[k] == Decided(flights[g])[i]
  {
    var n := |flights| - 1;
    var rest := flights[..n];
    if k < |Batches(rest)| {
      DecisionFrom(rest, k);
      var g, i :| 0 <= g < |rest| && 0 <= i < |rest[g].batch|
                  && Batches(rest)[k] == rest[g].batch[i] && Decisions(rest)[k] == Decided(rest[g])[i];
      assert flights[g] == rest[g];
    } else {
      var i := k - |Batches(rest)|;
      assert Batches(flights)[k] == flights[n].batch[i] && Decisions(flights)[k] == Decided(flights[n])[i];
    }
  }

  /** A record is suppressed only if enforced and answered so at its own index, and none is if the
      breaker was open or the answer unusable. */
  lemma RunJustified(c: Config, signals: seq<Signal>, worlds: nat -> World, x: Routed)
    requires c.maxBatch <= MAX_INT32
    requires x in Run(c, INIT, signals, worlds).suppressed
    ensures var s := Run(c, INIT, signals, worlds);
            exists g, i :: 0 <= g < |s.flights| && 0 <= i < |s.flights[g].batch|
                           && Justified(c.enforcement, s.flights[g], i, x)
  {
    var s := Run(c, INIT, signals, worlds);
    RunSound(c, signals, worlds);
    hide Run, Side, Decided, Enforced, DecisionAt, LastDecision;
    var rs, ds := Batches(s.flights), Decisions(s.flights);
    SideFrom(c.enforcement, rs, ds, true, x);
    var k :| 0 <= k < |rs|
             && Suppresses(c.enforcement, rs[k], ds[k]) == true && x == Route(c.enforcement, rs[k], ds[k]);
    DecisionFrom(s.flights, k);
    var g, i :| 0 <= g < |s.flights| && 0 <= i < |s.flights[g].batch|
                && rs[k] == s.flights[g].batch[i] && ds[k] == Decided(s.flights[g])[i];
    var f := s.flights[g];
    SuppressedByAnswer(i, |f.batch|, f.open, f.answer);
    EnforcedExactly(c.enforcement, f.batch[i]);
    hide Flagged, NamespaceSet;
    assert Justified(c.enforcement, f, i, x);
  }

  lemma NextDrains(c: Config, s: State, signal: Signal, w: World)
    requires Sound(c, s) && !signal.Received?
    ensures Next(c, s, signal, w).buf == [] && Next(c, s, signal, w).received == s.received
  {
    hide Side, Batches, Decisions, Decided;
  }

  /** After a tick nothing waits: every record received so far is on one of the sides. */
  lemma TickDrains(c: Config, signals: seq<Signal>, worlds: nat -> World)
    requires signals != [] && signals[|signals| - 1] == Tick
    ensures var s := Run(c, INIT, signals, worlds); s.buf == [] && |s.kept| + |s.suppressed| == |s.received|
  {
    var n := |signals| - 1;
    RunSound(c, signals[..n], worlds);
    NextDrains(c, Run(c, INIT, signals[..n], worlds), signals[n], worlds(n));
    RunConserves(c, signals, worlds);
    hide Next;
  }

  // ------------------------------------------------------------ a dead sampler

  function Attempts(flights: seq<Flight>): (r: seq<Attempt>)
    ensures |r| == |flights| && forall i | 0 <= i < |r| :: r[i] == flights[i].at
  {
    seq(|flights|, i requires 0 <= i < |flights| => flights[i].at)
  }

  /** The flushes that called the sampler. */
  function Rpcs(flights: seq<Flight>): seq<Attempt> {
    if flights == [] then []
    else
      var last := flights[|flights| - 1];
      Rpcs(flights[..|flights| - 1]) + if last.open then [] else [last.at]
  }

  ghost predicate AllDead(flights: seq<Flight>) {
    forall i | 0 <= i < |flights| :: flights[i].batch != [] && !Usable(flights[i].answer, |flights[i].batch|)
  }

  /** Flush n is the first one, or comes right after one that the sampler answered. */
  predicate Afresh(flights: seq<Flight>, n: nat)
    requires n <= |flights|
  {
    n == 0 || (!flights[n - 1].open && Usable(flights[n - 1].answer, |flights[n - 1].batch|))
  }

  /** The breaker's failures since its last success are those of the RPCs made. */
  ghost predicate Remembers(h: seq<Call>, made: seq<Attempt>) {
    Streak(h) == |made| && (made != [] ==> LastFailure(h) == made[|made| - 1].end)
  }

  /** From flush n on, the RPCs made are those that a new breaker lets through, and it remembers them. */
  ghost predicate CountedFrom(s: State, n: nat)
    requires n <= |s.flights|
  {
    Afresh(s.flights, n) && AllDead(s.flights[n..]) ==>
      && Rpcs(s.flights[n..]) == Made(MAX_FAILURES, TIMEOUT, Attempts(s.flights[n..]))
      && Remembers(s.history, Rpcs(s.flights[n..]))
  }

  ghost predicate Counted(s: State) { forall n: nat | n <= |s.flights| :: CountedFrom(s, n) }

  lemma RememberedTrips(h: seq<Call>, made: seq<Attempt>, now: int)
    requires Remembers(h, made)
    ensures IsOpen(h, now) <==> Tripped(Failures(made), MAX_FAILURES, TIMEOUT, now)
  {
    FailuresStreak(made);
  }

  lemma RemembersMore(h: seq<Call>, made: seq<Attempt>, at: Attempt)
    requires Remembers(h, made)
    ensures Remembers(h + [Breakers.Failed(at.end)], made + [at])
  {
    assert (h + [Breakers.Failed(at.end)])[..|h|] == h;
  }

  lemma AllDeadBefore(flights: seq<Flight>, f: Flight)
    requires AllDead(flights + [f])
    ensures AllDead(flights) && f.batch != [] && !Usable(f.answer, |f.batch|)
  {
    assert (flights + [f])[|flights|] == f;
    forall i | 0 <= i < |flights| ensures flights[i].batch != [] && !Usable(flights[i].answer, |flights[i].batch|) {
      assert (flights + [f])[i] == flights[i];
    }
  }

  lemma RpcsMore(flights: seq<Flight>, f: Flight)
    ensures Rpcs(flights + [f]) == Rpcs(flights) + if f.open then [] else [f.at]
  {
    assert (flights + [f])[..|flights|] == flights;
  }

  lemma MadeMore(a: seq<Attempt>, at: Attempt)
    ensures var before := Made(MAX_FAILURES, TIMEOUT, a);
            Made(MAX_FAILURES, TIMEOUT, a + [at])
            == if Tripped(Failures(before), MAX_FAILURES, TIMEOUT, at.start) then before else before + [at]
  {
    assert (a + [at])[..|a|] == a;
  }

  /** One more flush in vain. */
  lemma DeadCounted(h: seq<Call>, flights: seq<Flight>, f: Flight)
    requires f.open <==> IsOpen(h, f.at.start)
    requires Rpcs(flights) == Made(MAX_FAILURES, TIMEOUT, Attempts(flights)) && Remembers(h, Rpcs(flights))
    ensures Rpcs(flights + [f]) == Made(MAX_FAILURES, TIMEOUT, Attempts(flights + [f]))
    ensures Remembers(if f.open then h else h + [Breakers.Failed(f.at.end)], Rpcs(flights + [f]))
  {
    assert Attempts(flights + [f]) == Attempts(flights) + [f.at];
    RememberedTrips(h, Rpcs(flights), f.at.start);
    RpcsMore(flights, f);
    MadeMore(Attempts(flights), f.at);
    RemembersMore(h, Rpcs(flights), f.at);
    hide Tripped, Remembers, Made, Rpcs;
  }

  lemma FlushFields(c: Config, s: State, w: World)
    requires s.buf != []
    ensures var f, t := FlightOf(s, w), Flushed(c, s, w);
            && t.flights == s.flights + [f] && f.at == Attempt(w.now, w.later) && f.batch == s.buf
            && (f.open <==> IsOpen(s.history, w.now))
            && t.history == (if f.open then s.history
                             else if Usable(f.answer, |f.batch|) then s.history + [Succeeded]
                             else s.history + [Breakers.Failed(w.later)])
  {
    hide Side, Decided, Tripped;
  }

  lemma FlushCountedFrom(c: Config, s: State, w: World, n: nat)
    requires s.buf != [] && n <= |s.flights| && CountedFrom(s, n)
    ensures n <= |Flushed(c, s, w).flights| && CountedFrom(Flushed(c, s, w), n)
  {
    FlushFields(c, s, w);
    var f, t := FlightOf(s, w), Flushed(c, s, w);
    hide Flushed, FlightOf, IsOpen, Remembers, Rpcs, Made;
    assert t.flights[n..] == s.flights[n..] + [f];
    if Afresh(t.flights, n) && AllDead(t.flights[n..]) {
      AllDeadBefore(s.flights[n..], f);
      hide AllDead, Usable;
      assert Afresh(s.flights, n);
      DeadCounted(s.history, s.flights[n..], f);
    }
  }

  /** After a success the count starts over. */
  lemma SuccessCounted(c: Config, s: State, w: World)
    requires s.buf != []
    ensures var t := Flushed(c, s, w); CountedFrom(t, |t.flights|)
  {
    FlushFields(c, s, w);
    hide Flushed, FlightOf, IsOpen;
    var t := Flushed(c, s, w);
    assert t.flights[|t.flights|..] == [] && Attempts([]) == [];
  }

  lemma FlushCounted(c: Config, s: State, w: World)
    requires Counted(s)
    ensures Counted(Flushed(c, s, w))
  {
    if s.buf != [] {
      var t := Flushed(c, s, w);
      FlushFields(c, s, w);
      SuccessCounted(c, s, w);
      hide Flushed, FlightOf, IsOpen, CountedFrom;
      forall n: nat | n <= |t.flights| ensures CountedFrom(t, n) {
        if n < |t.flights| { FlushCountedFrom(c, s, w, n); }
      }
    }
  }

  /** The clock does not go back from one turn to the next. */
  ghost predicate Orderly(worlds: nat -> World) {
    && (forall i :: worlds(i).now <= worlds(i).later)
    && (forall i, j | i < j :: worlds(i).later <= worlds(j).now)
  }

  lemma FlushInTurn(c: Config, s: State, w: World)
    requires Sequential(Attempts(s.flights)) && w.now <= w.later
    requires forall i | 0 <= i < |s.flights| :: s.flights[i].at.end <= w.now
    ensures Sequential(Attempts(Flushed(c, s, w).flights))
    ensures var t := Flushed(c, s, w); forall i | 0 <= i < |t.flights| :: t.flights[i].at.end <= w.later
  {
    hide Side, Decided, Tripped, Called;
    var b, t := Attempts(s.flights), Flushed(c, s, w);
    var a := Attempts(t.flights);
    forall i | 0 <= i < |b| ensures a[i] == b[i] && b[i].start <= b[i].end && b[i].end <= w.now { }
  }

  lemma {:induction false} RunCounted(c: Config, signals: seq<Signal>, worlds: nat -> World)
    requires Orderly(worlds)
    ensures var s := Run(c, INIT, signals, worlds);
            && Counted(s) && Sequential(Attempts(s.flights))
            && (forall i | 0 <= i < |s.flights| :: |signals| > 0 && s.flights[i].at.end <= worlds(|signals| - 1).later)
  {
    if signals == [] {
      assert Attempts([]) == [];
    } else {
      var n := |signals| - 1;
      RunCounted(c, signals[..n], worlds);
      var s, w := Run(c, INIT, signals[..n], worlds), worlds(n);
      forall i | 0 <= i < |s.flights| ensures s.flights[i].at.end <= w.now {
        assert s.flights[i].at.end <= worlds(n - 1).later;
      }
      NextCounted(c, s, signals[n], w);
      hide Next, Counted;
    }
  }

  lemma NextCounted(c: Config, s: State, signal: Signal, w: World)
    requires Counted(s) && Sequential(Attempts(s.flights)) && w.now <= w.later
    requires forall i | 0 <= i < |s.flights| :: s.flights[i].at.end <= w.now
    ensures var t := Next(c, s, signal, w);
            && Counted(t) && Sequential(Attempts(t.flights))
            && (forall i | 0 <= i < |t.flights| :: t.flights[i].at.end <= w.later)
  {
    var u := match signal
      case Received(r) => Took(s, r)
      case _ => s;
    assert u.flights == s.flights && u.history == s.history;
    CountedSame(s, u);
    CountedSame(Flushed(c, u, w), Flushed(c, u, w).(stopped := true));
    hide Flushed, Counted, Sequential;
    FlushCounted(c, u, w);
    FlushInTurn(c, u, w);
  }

  lemma CountedSame(s: State, t: State)
    requires s.flights == t.flights && s.history == t.history
    ensures Counted(s) ==> Counted(t)
  {
    hide Remembers, Made, Rpcs, AllDead, Afresh;
    forall n: nat | n <= |t.flights| && Counted(s) ensures CountedFrom(t, n) { assert CountedFrom(s, n); }
  }

  lemma LaterSequential(flights: seq<Flight>, n: nat)
    requires n <= |flights| && Sequential(Attempts(flights))
    ensures Sequential(Attempts(flights[n..]))
  {
    var a, b := Attempts(flights), Attempts(flights[n..]);
    assert forall i | 0 <= i < |b| :: b[i] == a[n + i];
  }

  /** While the sampler is dead, the batcher makes few RPCs: from the start or from a success on, up to a time t
      after the one that trips the breaker, at most as many as trip it and one for every timeout since. */
  lemma RunFewCalls(c: Config, signals: seq<Signal>, worlds: nat -> World, n: nat, k: nat, t: int)
    requires Orderly(worlds) && t >= 0 && n <= |Run(c, INIT, signals, worlds).flights|
    requires var flights := Run(c, INIT, signals, worlds).flights; Afresh(flights, n) && AllDead(flights[n..])
    requires var rpcs := Rpcs(Run(c, INIT, signals, worlds).flights[n..]);
             5 <= |rpcs| && k < |rpcs| && rpcs[k].start <= rpcs[4].end + t
    ensures k + 1 <= 5 + t / 30000
  {
    RunCounted(c, signals, worlds);
    var s := Run(c, INIT, signals, worlds);
    assert CountedFrom(s, n);
    hide Run, Made, Rpcs, AllDead, Sequential, Remembers, Counted;
    LaterSequential(s.flights, n);
    FewCallsWhileDead(MAX_FAILURES, TIMEOUT, Attempts(s.flights[n..]), k, t);
  }

  // ------------------------------------------------------------------ class

  ghost function Outs(rs: seq<PipelineRecord>): (xs: seq<Routed>)
    reads rs
    ensures |xs| == |rs| && forall i | 0 <= i < |rs| :: xs[i] == Routed(rs[i].Value(), rs[i].decision)
  {
    seq(|rs|, i requires 0 <= i < |rs| reads rs => Routed(rs[i].Value(), rs[i].decision))
  }

  lemma SideNext(e: Enforcement, rs: seq<Record>, ds: seq<Decision>, i: nat, side: bool)
    requires |rs| == |ds| && i < |rs|
    ensures Side(e, rs[..i + 1], ds[..i + 1], side)
         == Side(e, rs[..i], ds[..i], side)
            + if Suppresses(e, rs[i], ds[i]) == side then [Route(e, rs[i], ds[i])] else []
  {
    assert rs[..i + 1][..i] == rs[..i] && ds[..i + 1][..i] == ds[..i];
  }

  /** A signal as the program gets it, with the record itself. */
  datatype Input = StopIn | ClosedIn | In(rec: PipelineRecord) | TickIn

  ghost function Recs(input: Input): set<PipelineRecord> { if input.In? then {input.rec} else {} }

  ghost function Signalled(input: Input): Signal
    reads Recs(input)
  {
    match input
    case StopIn => Stop
    case ClosedIn => Closed
    case In(rec) => Received(rec.Value())
    case TickIn => Tick
  }

  lemma ValuesMore(rs: seq<PipelineRecord>, r: PipelineRecord)
    ensures Values(rs + [r]) == Values(rs) + [r.Value()]
  {
  }

  lemma NoValues()
    ensures Values([]) == []
  {
  }

  lemma SideNone(e: Enforcement, rs: seq<Record>, ds: seq<Decision>)
    requires |rs| == |ds|
    ensures forall side :: Side(e, rs[..0], ds[..0], side) == []
  {
  }

  class SamplerBatcher {
    const config: Config
    const client: SamplerClient
    var buf: seq<PipelineRecord>
    var kept: seq<PipelineRecord>
    var suppressed: seq<PipelineRecord>

    ghost var received: seq<Record>
    ghost var flights: seq<Flight>
    ghost var stopped: bool

    ghost predicate Valid()
      reads this, client.breaker
    {
      && client.Valid() && Distinct(buf)
      && (forall r | r in buf :: r !in kept && r !in suppressed)
    }

    ghost function Model(): State
      reads this, client.breaker, buf, kept, suppressed
    {
      State(Values(buf), Outs(kept), Outs(suppressed), client.breaker.history, stopped, received, flights)
    }

    constructor (config: Config, client: SamplerClient)
      requires client.Valid() && client.breaker.history == [] && config.maxBatch >= 0
      ensures Valid() && Model() == INIT && this.config == config && this.client == client
    {
      this.config, this.client := config, client;
      buf, kept, suppressed := [], [], [];
      received, flights, stopped := [], [], false;
    }

    method ShouldEnforce(labels: map<string, string>, severity: string) returns (enforce: bool)
      ensures enforce <==> Enforces(config.enforcement, labels, severity)
    {
      var e, sev := config.enforcement, ToLower(severity);
      if sev == "debug" {
        if e.debug { return true; }
      } else if sev == "info" {
        if e.info { return true; }
      } else if sev == "warn" || sev == "warning" {
        if e.warn { return true; }
      } else if sev == "error" {
        if e.error { return true; }
      } else if sev == "fatal" {
        return true;
      }
      if "k8s_namespace" in labels && |e.byNamespace| > 0 {
        if labels["k8s_namespace"] in e.byNamespace {
          return e.byNamespace[labels["k8s_namespace"]];
        }
      }
      return false;
    }

    /** Sends one decided record to its side. */
    method RouteOne(rec: PipelineRecord, ghost r: Record, ghost d: Decision)
      requires rec !in kept && rec !in suppressed && rec.Value() == r && rec.decision == d
      modifies this`kept, this`suppressed, rec`shadow
      ensures Outs(kept) == old(Outs(kept))
              + if Suppresses(config.enforcement, r, d) == false then [Route(config.enforcement, r, d)] else []
      ensures Outs(suppressed) == old(Outs(suppressed))
              + if Suppresses(config.enforcement, r, d) == true then [Route(config.enforcement, r, d)] else []
      ensures forall x | x in kept || x in suppressed :: x in old(kept) || x in old(suppressed) || x == rec
    {
      hide Enforces;
      var action := rec.decision.action;
      var enforce := ShouldEnforce(rec.normalized.labels, rec.normalized.schema);
      if enforce {
        if action == Suppress {
          suppressed := suppressed + [rec];
          return;
        }
      } else {
        rec.shadow := true;
      }
      kept := kept + [rec];
    }

    /** Sends the decided records of the buffer to their sides. */
    method RouteAll(ghost rs: seq<Record>, ghost ds: seq<Decision>)
      requires Valid() && Values(buf) == rs && |ds| == |buf|
      requires forall i | 0 <= i < |buf| :: buf[i].decision == ds[i]
      modifies this`kept, this`suppressed, buf`shadow
      ensures Outs(kept) == old(Outs(kept)) + Side(config.enforcement, rs, ds, false)
      ensures Outs(suppressed) == old(Outs(suppressed)) + Side(config.enforcement, rs, ds, true)
      ensures forall r | r in kept || r in suppressed :: r in old(kept) || r in old(suppressed) || r in buf
    {
      hide Enforced, Suppresses, Route, Side, Outs;
      ghost var e := config.enforcement;
      SideNone(e, rs, ds);
      var i := 0;
      while i < |buf|
        invariant 0 <= i <= |buf|
        invariant forall j | i <= j < |buf| :: buf[j] !in kept && buf[j] !in suppressed
        invariant forall j | i <= j < |buf| :: buf[j].Value() == rs[j]
        invariant Outs(kept) == old(Outs(kept)) + Side(e, rs[..i], ds[..i], false)
        invariant Outs(suppressed) == old(Outs(suppressed)) + Side(e, rs[..i], ds[..i], true)
        invariant forall r | r in kept || r in suppressed :: r in old(kept) || r in old(suppressed) || r in buf
      {
        SideNext(e, rs, ds, i, false);
        SideNext(e, rs, ds, i, true);
        RouteOne(buf[i], rs[i], ds[i]);
        i := i + 1;
      }
      assert rs[..i] == rs && ds[..i] == ds;
    }

    /** Has the buffer decided; nothing that has left it changes. */
    method Ask(w: World, ghost f: Flight)
      requires Valid() && w.now > 0 && f == FlightOf(Model(), w)
      modifies client.breaker, buf`decision
      ensures client.Valid() && Values(buf) == old(Values(buf))
      ensures client.breaker.history == Called(old(client.breaker.history), |buf|, w.now, w.later, f.answer)
      ensures forall i | 0 <= i < |buf| :: buf[i].decision == Decided(f)[i]
      ensures Outs(kept) == old(Outs(kept)) && Outs(suppressed) == old(Outs(suppressed))
    {
      hide Called, Tripped, DecisionAt, Requests, RequestOf;
      var ok := client.DecideBatch(buf, w.now, w.later, w.rpc);
      forall i | 0 <= i < |kept| ensures Outs(kept)[i] == old(Outs(kept))[i] {
        assert kept[i] !in buf;
      }
      forall i | 0 <= i < |suppressed| ensures Outs(suppressed)[i] == old(Outs(suppressed))[i] {
        assert suppressed[i] !in buf;
      }
    }

    method Flush(w: World)
      requires Valid() && w.now > 0
      modifies this, client.breaker, buf
      ensures Valid() && Model() == Flushed(config, old(Model()), w)
      ensures forall r | r in kept || r in suppressed :: r in old(kept) || r in old(suppressed) || r in old(buf)
      ensures buf == []
    {
      hide Side, Called, Tripped, DecisionAt, Outs, Values, Decided;
      if |buf| == 0 {
        return;
      }
      ghost var f, rs := FlightOf(Model(), w), Values(buf);
      Ask(w, f);
      RouteAll(rs, Decided(f));
      flights := flights + [f];
      buf := [];
      NoValues();
    }

    /** One turn of the select loop. */
    method Turn(input: Input, w: World)
      requires Valid() && !stopped && w.now > 0
      requires input.In? ==> input.rec !in buf && input.rec !in kept && input.rec !in suppressed
      modifies this, client.breaker, buf, Recs(input)
      ensures Valid() && Model() == Next(config, old(Model()), old(Signalled(input)), w)
      ensures forall r | r in buf || r in kept || r in suppressed ::
                r in old(buf) || r in old(kept) || r in old(suppressed) || r in Recs(input)
    {
      hide Flushed, Outs, Tripped;
      match input {
        case StopIn =>
          Flush(w);
          stopped := true;
        case ClosedIn =>
          Flush(w);
          stopped := true;
        case In(rec) =>
          ValuesMore(buf, rec);
          buf := buf + [rec];
          received := received + [rec.Value()];
          if |buf| >= config.maxBatch {
            Flush(w);
          }
        case TickIn =>
          Flush(w);
      }
    }
  }
}
