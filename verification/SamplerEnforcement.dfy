/** Which records the gateway enforces the sampler's word on (gateway/pkg/sampler/batcher.go:107-124, 147-178): a law
    for every flag, over all runs of the batcher. */
module SamplerEnforcements {
  import opened GatewayTypes
  import opened GoStrings
  import opened SamplerBatchers
  import opened SamplerClients

  // -------------------------------------------------------------- who may go

  lemma {:induction false} SideOf(e: Enforcement, rs: seq<Record>, ds: seq<Decision>, k: nat)
    requires |rs| == |ds| && k < |rs|
    ensures Route(e, rs[k], ds[k]) in Side(e, rs, ds, Suppresses(e, rs[k], ds[k]))
  {
    hide Route, Suppresses;
    var n := |rs| - 1;
    if k < n { SideOf(e, rs[..n], ds[..n], k); }
  }

  /** A suppressed record whose namespace is not set is fatal or of a severity whose own flag is. */
  lemma SuppressedByFlag(c: Config, signals: seq<Signal>, worlds: nat -> World, x: Routed)
    requires x in Run(c, INIT, signals, worlds).suppressed && !NamespaceSet(c.enforcement, x.record)
    ensures var e, s := c.enforcement, ToLower(x.record.normalized.schema);
            || s == "fatal" || (s == "debug" && e.debug) || (s == "info" && e.info)
            || (s in {"warn", "warning"} && e.warn) || (s == "error" && e.error)
  {
    var s := Run(c, INIT, signals, worlds);
    RunSound(c, signals, worlds);
    hide Run, Side, Enforced, ToLower, NamespaceSet;
    var rs, ds := Batches(s.flights), Decisions(s.flights);
    SideFrom(c.enforcement, rs, ds, true, x);
    var k :| 0 <= k < |rs|
             && Suppresses(c.enforcement, rs[k], ds[k]) == true && x == Route(c.enforcement, rs[k], ds[k]);
    assert x.record == rs[k];
    EnforcedExactly(c.enforcement, rs[k]);
  }

  /** With every flag off and no namespace set, only fatal records are suppressed. */
  lemma OnlyFatalWhenOff(c: Config, signals: seq<Signal>, worlds: nat -> World, x: Routed)
    requires var e := c.enforcement;
             !e.debug && !e.info && !e.warn && !e.error && forall n | n in e.byNamespace :: !e.byNamespace[n]
    requires x in Run(c, INIT, signals, worlds).suppressed
    ensures ToLower(x.record.normalized.schema) == "fatal"
  {
    hide Run, ToLower;
    SuppressedByFlag(c, signals, worlds, x);
  }

  lemma {:induction false} BatchIn(flights: seq<Flight>, g: nat, i: nat) returns (k: nat)
    requires g < |flights| && i < |flights[g].batch|
    ensures k < |Batches(flights)| && Batches(flights)[k] == flights[g].batch[i]
    ensures Decisions(flights)[k] == Decided(flights[g])[i]
  {
    var n := |flights| - 1;
    if g < n { k := BatchIn(flights[..n], g, i); } else { k := |Batches(flights[..n])| + i; }
    hide Decided;
  }

  /** And a record of such a severity, or of a set namespace, to which a usable response says SUPPRESS at its own
      index, is suppressed. */
  lemma FlaggedIsSuppressed(c: Config, signals: seq<Signal>, worlds: nat -> World, g: nat, i: nat, j: int)
    requires g < |Run(c, INIT, signals, worlds).flights|
    requires i < |Run(c, INIT, signals, worlds).flights[g].batch| <= MAX_INT32
    requires var f := Run(c, INIT, signals, worlds).flights[g];
             && !f.open && Usable(f.answer, |f.batch|) && LastDecision(f.answer.items, i, j)
             && f.answer.items[j].value.action == Suppress
    requires var e, r := c.enforcement, Run(c, INIT, signals, worlds).flights[g].batch[i];
             var s := ToLower(r.normalized.schema);
             || s == "fatal" || (s == "debug" && e.debug) || (s == "info" && e.info)
             || (s in {"warn", "warning"} && e.warn) || (s == "error" && e.error) || NamespaceSet(e, r)
    ensures var s := Run(c, INIT, signals, worlds); var f := s.flights[g];
            Routed(f.batch[i], f.answer.items[j].value) in s.suppressed
  {
    var s := Run(c, INIT, signals, worlds);
    var f := s.flights[g];
    RunSound(c, signals, worlds);
    DecidedByAnswer(i, |f.batch|, f.answer, j);
    hide Run, Side, ToLower, NamespaceSet, DecisionAt, LastDecision;
    EnforcedExactly(c.enforcement, f.batch[i]);
    hide Enforced;
    var rs, ds := Batches(s.flights), Decisions(s.flights);
    var k := BatchIn(s.flights, g, i);
    SideOf(c.enforcement, rs, ds, k);
  }

  // ------------------------------------------------------- one flag, one severity

  /** What left on one side, without the records of some severities. */
  function Others(xs: seq<Routed>, names: set<string>): seq<Routed> {
    if xs == [] then []
    else
      var last := xs[|xs| - 1];
      Others(xs[..|xs| - 1], names) + if SeverityOf(last.record) in names then [] else [last]
  }

  lemma {:induction false} OthersJoin(xs: seq<Routed>, ys: seq<Routed>, names: set<string>)
    ensures Others(xs + ys, names) == Others(xs, names) + Others(ys, names)
  {
    hide SeverityOf;
    if ys == [] {
      assert xs + ys == xs;
    } else {
      var n := |ys| - 1;
      OthersJoin(xs, ys[..n], names);
      assert (xs + ys)[..|xs| + n] == xs + ys[..n] && (xs + ys)[|xs| + n] == ys[n];
    }
  }

  /** The two enforcements agree on all records but those of some severities. */
  ghost predicate AgreeBeside(e: Enforcement, e': Enforcement, names: set<string>) {
    forall r | SeverityOf(r) !in names :: Enforced(e, r) <==> Enforced(e', r)
  }

  lemma OthersOne(x: Routed, names: set<string>)
    ensures Others([x], names) == if SeverityOf(x.record) in names then [] else [x]
    ensures Others([], names) == []
  {
    assert [x][..0] == [];
  }

  lemma {:induction false} SidesAgree(e: Enforcement, e': Enforcement, rs: seq<Record>, ds: seq<Decision>, side: bool,
                                      names: set<string>)
    requires |rs| == |ds| && AgreeBeside(e, e', names)
    ensures Others(Side(e, rs, ds, side), names) == Others(Side(e', rs, ds, side), names)
  {
    if rs != [] {
      var n := |rs| - 1;
      var r, d := rs[n], ds[n];
      SidesAgree(e, e', rs[..n], ds[..n], side, names);
      OthersOne(Route(e, r, d), names);
      OthersOne(Route(e', r, d), names);
      var x := if Suppresses(e, r, d) == side then [Route(e, r, d)] else [];
      var y := if Suppresses(e', r, d) == side then [Route(e', r, d)] else [];
      OthersJoin(Side(e, rs[..n], ds[..n], side), x, names);
      OthersJoin(Side(e', rs[..n], ds[..n], side), y, names);
      assert SeverityOf(Route(e, r, d).record) == SeverityOf(r) == SeverityOf(Route(e', r, d).record);
      assert SeverityOf(r) !in names ==> (Enforced(e, r) <==> Enforced(e', r));
      hide Others, Enforced, SeverityOf, AgreeBeside;
      assert Others(x, names) == Others(y, names);
    }
  }

  /** What is asked does not depend on what is enforced. */
  lemma {:induction false} SameFlights(c: Config, c': Config, signals: seq<Signal>, worlds: nat -> World)
    requires c.maxBatch == c'.maxBatch
    ensures var s, t := Run(c, INIT, signals, worlds), Run(c', INIT, signals, worlds);
            && s.flights == t.flights && s.buf == t.buf && s.history == t.history && s.stopped == t.stopped
            && s.received == t.received
  {
    if signals != [] {
      var n := |signals| - 1;
      SameFlights(c, c', signals[..n], worlds);
      hide Side, Called, Decided, IsOpen;
    }
  }

  lemma RunsAgree(c: Config, c': Config, signals: seq<Signal>, worlds: nat -> World, names: set<string>)
    requires c.maxBatch == c'.maxBatch && AgreeBeside(c.enforcement, c'.enforcement, names)
    ensures var s, t := Run(c, INIT, signals, worlds), Run(c', INIT, signals, worlds);
            Others(s.suppressed, names) == Others(t.suppressed, names) && Others(s.kept, names) == Others(t.kept, names)
  {
    SameFlights(c, c', signals, worlds);
    RunSound(c, signals, worlds);
    RunSound(c', signals, worlds);
    var s := Run(c, INIT, signals, worlds);
    hide Run, Side, Others, AgreeBeside;
    SidesAgree(c.enforcement, c'.enforcement, Batches(s.flights), Decisions(s.flights), true, names);
    SidesAgree(c.enforcement, c'.enforcement, Batches(s.flights), Decisions(s.flights), false, names);
  }

  /** Of two configurations that differ in one flag, both sides get the same records of the other severities, in
      the same order. */
  lemma OneFlagOneSeverity(c: Config, c': Config, signals: seq<Signal>, worlds: nat -> World, names: set<string>)
    requires c.maxBatch == c'.maxBatch && c.enforcement.byNamespace == c'.enforcement.byNamespace
    requires var e, e' := c.enforcement, c'.enforcement;
             || (names == {"debug"} && e.info == e'.info && e.warn == e'.warn && e.error == e'.error)
             || (names == {"info"} && e.debug == e'.debug && e.warn == e'.warn && e.error == e'.error)
             || (names == {"warn", "warning"} && e.debug == e'.debug && e.info == e'.info && e.error == e'.error)
             || (names == {"error"} && e.debug == e'.debug && e.info == e'.info && e.warn == e'.warn)
    ensures var s, t := Run(c, INIT, signals, worlds), Run(c', INIT, signals, worlds);
            Others(s.suppressed, names) == Others(t.suppressed, names) && Others(s.kept, names) == Others(t.kept, names)
  {
    forall r | SeverityOf(r) !in names ensures Enforced(c.enforcement, r) <==> Enforced(c'.enforcement, r) {
      EnforcedExactly(c.enforcement, r);
      EnforcedExactly(c'.enforcement, r);
      hide Enforced;
    }
    hide Run, Enforced, Others;
    RunsAgree(c, c', signals, worlds, names);
  }

  /** Severities are read whatever their case. */
  lemma SeveritiesIgnoreCase()
    ensures ToLower("DEBUG") == "debug" && ToLower("Info") == "info" && ToLower("WARNING") == "warning"
    ensures ToLower("ERROR") == "error" && ToLower("Fatal") == "fatal" && ToLower("warn") == "warn"
  {
  }
}
