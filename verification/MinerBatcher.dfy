/** The batcher in front of the miner (gateway/pkg/miner/batcher.go:68-234): it collects logs, sends them
    in batches, and gives every log one record whatever the miner answers. */
module MinerBatchers {
  import opened GatewayTypes
  import opened Options

  // ----------------------------------------------------------------- answers

  /** No result and no error is an answer, too. */
  datatype Answer = Failed(error: string) | NoResult | Mined(results: seq<TemplateResult>, shadows: seq<MinerShadow>)

  /** What a flush meets: the miner's answer, and two readings of the clock for each record. */
  datatype World = World(answer: Answer, clock: nat -> (int, int))

  predicate InRange(index: int, n: nat) { 0 <= index < Int32(n) }

  /** The last of several results for one record counts. */
  function ResultFor(results: seq<TemplateResult>, n: nat, index: int): Option<TemplateResult> {
    if results == [] then None
    else
      var last := results[|results| - 1];
      if InRange(last.recordIndex, n) && last.recordIndex == index then Some(last)
      else ResultFor(results[..|results| - 1], n, index)
  }

  function ShadowsFor(shadows: seq<MinerShadow>, n: nat, index: int): Option<seq<TemplateResult>> {
    if shadows == [] then None
    else
      var last := shadows[|shadows| - 1];
      if InRange(last.recordIndex, n) && last.recordIndex == index then Some(last.candidates)
      else ShadowsFor(shadows[..|shadows| - 1], n, index)
  }

  function Dummy(index: int, id: string, template: string, times: (int, int)): TemplateResult {
    TemplateResult(index, id, template, ".*", "", 0.0, Fallback, times.0, times.1, [])
  }

  function RecordFor(nl: NormalizedLog, w: World, n: nat, i: nat): MinedRecord {
    match w.answer
    case Failed(e) =>
      MinedRecord(nl, Dummy(Int32(i), "unknown", "fallback_template", w.clock(i)), [], true, e)
    case NoResult =>
      MinedRecord(nl, Dummy(Int32(i), "unknown", "fallback_template", w.clock(i)), [], true, "")
    case Mined(results, shadows) =>
      var r, s := ResultFor(results, n, Int32(i)), ShadowsFor(shadows, n, Int32(i));
      MinedRecord(nl,
                  if r.Some? then r.value else Dummy(Int32(i), "missing", "missing_template", w.clock(i)),
                  if s.Some? then s.value else [], r.None?, "")
  }

  /** A record without a result says so: nothing is matched, nothing is trusted, and it has just been seen. */
  lemma FallbackSays(nl: NormalizedLog, w: World, n: nat, i: nat)
    requires RecordFor(nl, w, n, i).fromFallback
    ensures var r := RecordFor(nl, w, n, i); var t := r.primary;
            && t.provenance == Fallback && t.confidence == 0.0 && t.recordIndex == Int32(i) && t.examples == []
            && t.firstSeen == w.clock(i).0 && t.lastSeen == w.clock(i).1
            && (w.answer.Mined? ==> t.templateId == "missing" && t.template == "missing_template" && r.note == "")
            && (!w.answer.Mined? ==> t.templateId == "unknown" && t.template == "fallback_template")
            && (w.answer.Failed? ==> r.note == w.answer.error)
  {
    hide ResultFor, ShadowsFor;
  }

  /** The records of one batch. */
  function Emit(batch: seq<NormalizedLog>, w: World): (r: seq<MinedRecord>)
    ensures |r| == |batch| && forall i | 0 <= i < |batch| :: r[i] == RecordFor(batch[i], w, |batch|, i)
  {
    seq(|batch|, i requires 0 <= i < |batch| => RecordFor(batch[i], w, |batch|, i))
  }

  // -------------------------------------------------------------- alignment

  ghost predicate HasResult(a: Answer, index: int) {
    a.Mined? && exists j :: 0 <= j < |a.results| && a.results[j].recordIndex == index
  }

  /** results[j] is the last result for record i. */
  ghost predicate LastResult(results: seq<TemplateResult>, i: int, j: int) {
    && 0 <= j < |results| && results[j].recordIndex == i
    && forall l | j < l < |results| :: results[l].recordIndex != i
  }

  lemma LastResultMore(results: seq<TemplateResult>, i: int, j: int)
    requires results != [] && results[|results| - 1].recordIndex != i && LastResult(results[..|results| - 1], i, j)
    ensures LastResult(results, i, j) && results[j] == results[..|results| - 1][j]
  {
  }

  lemma {:induction false} ResultExists(results: seq<TemplateResult>, n: nat, i: nat)
    requires i < n <= MAX_INT32
    ensures ResultFor(results, n, i).Some? <==> exists j :: 0 <= j < |results| && results[j].recordIndex == i
    ensures ResultFor(results, n, i).Some? ==>
              exists j :: LastResult(results, i, j) && ResultFor(results, n, i).value == results[j]
  {
    if results != [] {
      var m := |results| - 1;
      var rest := results[..m];
      ResultExists(rest, n, i);
      if results[m].recordIndex == i {
        assert LastResult(results, i, m);
      } else if ResultFor(rest, n, i).Some? {
        var j :| LastResult(rest, i, j) && ResultFor(rest, n, i).value == rest[j];
        LastResultMore(results, i, j);
      } else {
        forall j | 0 <= j < |results| ensures results[j].recordIndex != i {
          if j < m { assert rest[j].recordIndex != i; }
        }
      }
    }
  }

  ghost predicate LastShadow(shadows: seq<MinerShadow>, i: int, j: int) {
    && 0 <= j < |shadows| && shadows[j].recordIndex == i
    && forall l | j < l < |shadows| :: shadows[l].recordIndex != i
  }

  lemma {:induction false} ShadowExists(shadows: seq<MinerShadow>, n: nat, i: nat)
    requires i < n <= MAX_INT32
    ensures match ShadowsFor(shadows, n, i)
            case Some(cs) => exists j :: LastShadow(shadows, i, j) && cs == shadows[j].candidates
            case None => forall j | 0 <= j < |shadows| :: shadows[j].recordIndex != i
  {
    if shadows != [] {
      var m := |shadows| - 1;
      var rest := shadows[..m];
      ShadowExists(rest, n, i);
      if shadows[m].recordIndex == i {
        assert LastShadow(shadows, i, m);
      } else if ShadowsFor(rest, n, i).Some? {
        var j :| LastShadow(rest, i, j) && ShadowsFor(rest, n, i).value == rest[j].candidates;
        assert LastShadow(shadows, i, j) && shadows[j] == rest[j];
      } else {
        forall j | 0 <= j < |shadows| ensures shadows[j].recordIndex != i {
          if j < m { assert rest[j].recordIndex != i; }
        }
      }
    }
  }

  /** One record per log, in order, under its own index: the last of the miner's results for it, or a
      fallback exactly where there is none. */
  lemma EmitAligned(batch: seq<NormalizedLog>, w: World, i: nat)
    requires i < |batch| <= MAX_INT32
    ensures var r, a := Emit(batch, w)[i], w.answer;
            && r.normalized == batch[i]
            && r.primary.recordIndex == i
            && (r.fromFallback <==> !HasResult(a, i))
            && (!r.fromFallback ==> exists j :: LastResult(a.results, i, j) && r.primary == a.results[j])
            && (r.fromFallback ==> r.primary.provenance == Fallback)
  {
    if w.answer.Mined? { ResultExists(w.answer.results, |batch|, i); }
  }

  /** Its shadows are the last the miner gave for it, or none. */
  lemma EmitShadows(batch: seq<NormalizedLog>, w: World, i: nat)
    requires i < |batch| <= MAX_INT32
    ensures var r, a := Emit(batch, w)[i], w.answer;
            if a.Mined? && exists j :: LastShadow(a.shadows, i, j)
            then exists j :: LastShadow(a.shadows, i, j) && r.shadows == a.shadows[j].candidates
            else r.shadows == []
  {
    if w.answer.Mined? { ShadowExists(w.answer.shadows, |batch|, i); }
  }

  // ---------------------------------------------------------------- machine

  datatype Signal = Stop | Closed | Received(log: NormalizedLog) | Timer

  datatype Flight = Flight(batch: seq<NormalizedLog>, world: World)

  /** flights and received record what the program does not. */
  datatype State = State(buf: seq<NormalizedLog>, emitted: seq<MinedRecord>, stopped: bool,
                         received: seq<NormalizedLog>, flights: seq<Flight>)

  const INIT := State([], [], false, [], [])

  function Flushed(s: State, w: World): State {
    if s.buf == [] then s
    else s.(buf := [], emitted := s.emitted + Emit(s.buf, w), flights := s.flights + [Flight(s.buf, w)])
  }

  /** One turn of the select loop; w is met if the turn flushes. */
  function Next(maxBatch: int, s: State, signal: Signal, w: World): State {
    if s.stopped then s
    else
      match signal
      case Stop => Flushed(s, w).(stopped := true)
      case Closed => Flushed(s, w).(stopped := true)
      case Received(log) =>
        var t := s.(buf := s.buf + [log], received := s.received + [log]);
        if |t.buf| >= maxBatch then Flushed(t, w) else t
      case Timer => Flushed(s, w)
  }

  function Run(maxBatch: int, s: State, signals: seq<Signal>, worlds: nat -> World): State {
    if signals == [] then s
    else
      var n := |signals| - 1;
      Next(maxBatch, Run(maxBatch, s, signals[..n], worlds), signals[n], worlds(n))
  }

  function Logs(rs: seq<MinedRecord>): (r: seq<NormalizedLog>)
    ensures |r| == |rs| && forall i | 0 <= i < |rs| :: r[i] == rs[i].normalized
  {
    seq(|rs|, i requires 0 <= i < |rs| => rs[i].normalized)
  }

  function EmitAll(flights: seq<Flight>): seq<MinedRecord> {
    if flights == [] then []
    else EmitAll(flights[..|flights| - 1]) + Emit(flights[|flights| - 1].batch, flights[|flights| - 1].world)
  }

  /** Nothing is lost, doubled or reordered, and batches stay small. */
  ghost predicate Sound(maxBatch: int, s: State) {
    && Logs(s.emitted) + s.buf == s.received
    && s.emitted == EmitAll(s.flights)
    && |s.buf| < AtLeastOne(maxBatch)
    && (forall i | 0 <= i < |s.flights| :: 1 <= |s.flights[i].batch| <= AtLeastOne(maxBatch))
    && (s.stopped ==> s.buf == [])
  }

  lemma LogsEmit(before: seq<MinedRecord>, batch: seq<NormalizedLog>, w: World)
    ensures Logs(before + Emit(batch, w)) == Logs(before) + batch
  {
  }

  lemma FlushKeeps(maxBatch: int, s: State, w: World)
    requires Logs(s.emitted) + s.buf == s.received && s.emitted == EmitAll(s.flights)
    requires |s.buf| <= AtLeastOne(maxBatch) && !s.stopped
    requires forall i | 0 <= i < |s.flights| :: 1 <= |s.flights[i].batch| <= AtLeastOne(maxBatch)
    ensures Sound(maxBatch, Flushed(s, w)) && Flushed(s, w).buf == []
  {
    hide Emit, Logs;
    LogsEmit(s.emitted, s.buf, w);
    var after := s.flights + [Flight(s.buf, w)];
    assert after[..|after| - 1] == s.flights;
    assert Logs(s.emitted) + s.buf + [] == Logs(s.emitted) + s.buf;
  }

  lemma NextKeeps(maxBatch: int, s: State, signal: Signal, w: World)
    requires Sound(maxBatch, s)
    ensures Sound(maxBatch, Next(maxBatch, s, signal, w))
  {
    if !s.stopped {
      match signal
      case Received(log) =>
        var t := s.(buf := s.buf + [log], received := s.received + [log]);
        assert Logs(s.emitted) + (s.buf + [log]) == Logs(s.emitted) + s.buf + [log];
        if |t.buf| >= maxBatch { FlushKeeps(maxBatch, t, w); }
      case _ => FlushKeeps(maxBatch, s, w);
    }
    hide Emit, Logs, EmitAll, Flushed;
  }

  /** Over any run and any worlds. */
  lemma {:induction false} RunSound(maxBatch: int, signals: seq<Signal>, worlds: nat -> World)
    ensures Sound(maxBatch, Run(maxBatch, INIT, signals, worlds))
  {
    if signals != [] {
      var n := |signals| - 1;
      RunSound(maxBatch, signals[..n], worlds);
      NextKeeps(maxBatch, Run(maxBatch, INIT, signals[..n], worlds), signals[n], worlds(n));
      hide Sound, Next;
    }
  }

  /** After the timer nothing waits: every log received so far has its record. */
  lemma TimerDrains(maxBatch: int, signals: seq<Signal>, worlds: nat -> World)
    requires signals != [] && signals[|signals| - 1] == Timer
    ensures var s := Run(maxBatch, INIT, signals, worlds); s.buf == [] && Logs(s.emitted) == s.received
  {
    var n := |signals| - 1;
    RunSound(maxBatch, signals[..n], worlds);
    RunSound(maxBatch, signals, worlds);
    var s := Run(maxBatch, INIT, signals, worlds);
    assert s.buf == [] by { hide Emit, EmitAll, Logs; }
    assert Logs(s.emitted) + [] == Logs(s.emitted);
    hide Run;
  }

  lemma {:induction false} EmittedFrom(flights: seq<Flight>, k: nat)
    requires k < |EmitAll(flights)|
    ensures exists f, i :: 0 <= f < |flights| && 0 <= i < |flights[f].batch|
                           && EmitAll(flights)[k] == Emit(flights[f].batch, flights[f].world)[i]
  {
    var n := |flights| - 1;
    var rest := flights[..n];
    if k < |EmitAll(rest)| {
      EmittedFrom(rest, k);
      var f, i :| 0 <= f < |rest| && 0 <= i < |rest[f].batch|
                  && EmitAll(rest)[k] == Emit(rest[f].batch, rest[f].world)[i];
      assert rest[f] == flights[f];
    } else {
      var i := k - |EmitAll(rest)|;
      assert EmitAll(flights)[k] == Emit(flights[n].batch, flights[n].world)[i];
    }
  }

  /** Every record of a run carries its log's position in a batch, and is a fallback exactly if the
      answer to that batch had no result for the position. */
  lemma RunAligned(maxBatch: int, signals: seq<Signal>, worlds: nat -> World, k: nat)
    requires maxBatch <= MAX_INT32
    requires k < |Run(maxBatch, INIT, signals, worlds).emitted|
    ensures var s := Run(maxBatch, INIT, signals, worlds);
            exists f, i :: 0 <= f < |s.flights| && 0 <= i < |s.flights[f].batch|
              && s.emitted[k].normalized == s.flights[f].batch[i]
              && s.emitted[k].primary.recordIndex == i
              && (s.emitted[k].fromFallback <==> !HasResult(s.flights[f].world.answer, i))
  {
    var s := Run(maxBatch, INIT, signals, worlds);
    RunSound(maxBatch, signals, worlds);
    EmittedFrom(s.flights, k);
    var f, i :| 0 <= f < |s.flights| && 0 <= i < |s.flights[f].batch|
                && EmitAll(s.flights)[k] == Emit(s.flights[f].batch, s.flights[f].world)[i];
    EmitAligned(s.flights[f].batch, s.flights[f].world, i);
    hide Run, Emit, EmitAll, HasResult;
  }

  // ------------------------------------------------------------------ class

  class Batcher {
    const maxBatch: int
    var buf: seq<NormalizedLog>
    var output: seq<MinedRecord>

    ghost var received: seq<NormalizedLog>
    ghost var flights: seq<Flight>
    ghost var stopped: bool

    ghost function Model(): State
      reads this
    {
      State(buf, output, stopped, received, flights)
    }

    constructor (maxBatch: int)
      requires maxBatch >= 0
      ensures Model() == INIT && this.maxBatch == maxBatch
    {
      this.maxBatch := maxBatch;
      buf, output := [], [];
      received, flights, stopped := [], [], false;
    }

    method MapResults(results: seq<TemplateResult>, n: nat) returns (primaryMap: map<int, TemplateResult>)
      ensures forall i :: i in primaryMap <==> ResultFor(results, n, i).Some?
      ensures forall i | i in primaryMap :: primaryMap[i] == ResultFor(results, n, i).value
    {
      primaryMap := map[];
      var j := 0;
      while j < |results|
        invariant 0 <= j <= |results|
        invariant forall i :: i in primaryMap <==> ResultFor(results[..j], n, i).Some?
        invariant forall i | i in primaryMap :: primaryMap[i] == ResultFor(results[..j], n, i).value
      {
        assert results[..j + 1][..j] == results[..j];
        var primary := results[j];
        j := j + 1;
        if primary.recordIndex < 0 || primary.recordIndex >= Int32(n) {
          continue;
        }
        primaryMap := primaryMap[primary.recordIndex := primary];
      }
      assert results[..j] == results;
    }

    method MapShadows(shadows: seq<MinerShadow>, n: nat) returns (shadowMap: map<int, seq<TemplateResult>>)
      ensures forall i :: i in shadowMap <==> ShadowsFor(shadows, n, i).Some?
      ensures forall i | i in shadowMap :: shadowMap[i] == ShadowsFor(shadows, n, i).value
    {
      shadowMap := map[];
      var j := 0;
      while j < |shadows|
        invariant 0 <= j <= |shadows|
        invariant forall i :: i in shadowMap <==> ShadowsFor(shadows[..j], n, i).Some?
        invariant forall i | i in shadowMap :: shadowMap[i] == ShadowsFor(shadows[..j], n, i).value
      {
        assert shadows[..j + 1][..j] == shadows[..j];
        var shadow := shadows[j];
        j := j + 1;
        if shadow.recordIndex < 0 || shadow.recordIndex >= Int32(n) {
          continue;
        }
        shadowMap := shadowMap[shadow.recordIndex := shadow.candidates];
      }
      assert shadows[..j] == shadows;
    }

    /** Sends the records of the buffer on. */
    method Send(w: World)
      modifies this`output
      ensures output == old(output) + Emit(buf, w)
    {
      hide Emit;
      var answer := w.answer;
      var i := 0;
      if answer.Failed? || answer.NoResult? {
        while i < |buf|
          invariant 0 <= i <= |buf|
          invariant output == old(output) + Emit(buf, w)[..i]
        {
          var note := if answer.Failed? then answer.error else "";
          var dummy := Dummy(Int32(i), "unknown", "fallback_template", w.clock(i));
          output := output + [MinedRecord(buf[i], dummy, [], true, note)];
          i := i + 1;
        }
      } else {
        var primaryMap := MapResults(answer.results, |buf|);
        var shadowMap := MapShadows(answer.shadows, |buf|);
        while i < |buf|
          invariant 0 <= i <= |buf|
          invariant output == old(output) + Emit(buf, w)[..i]
        {
          var recordIndex := Int32(i);
          var found := recordIndex in primaryMap;
          var primary := if found then primaryMap[recordIndex]
                         else Dummy(recordIndex, "missing", "missing_template", w.clock(i));
          var shadows := if recordIndex in shadowMap then shadowMap[recordIndex] else [];
          output := output + [MinedRecord(buf[i], primary, shadows, !found, "")];
          i := i + 1;
        }
      }
      assert Emit(buf, w)[..i] == Emit(buf, w);
    }

    method Flush(w: World)
      modifies this`buf, this`output, this`flights
      ensures Model() == Flushed(old(Model()), w)
    {
      hide Emit;
      if |buf| == 0 {
        return;
      }
      Send(w);
      flights := flights + [Flight(buf, w)];
      buf := [];
    }

    /** The select loop, for as long as there are signals. */
    method Loop(signals: seq<Signal>, worlds: nat -> World)
      requires !stopped
      modifies this
      ensures Model() == Run(maxBatch, old(Model()), signals, worlds)
    {
      hide Flushed;
      ghost var before := Model();
      var n := 0;
      while n < |signals|
        invariant 0 <= n <= |signals| && !stopped
        invariant Model() == Run(maxBatch, before, signals[..n], worlds)
      {
        assert signals[..n + 1][..n] == signals[..n];
        match signals[n] {
          case Stop =>
            Flush(worlds(n));
            stopped := true;
            StaysStopped(maxBatch, before, signals, worlds, n + 1);
            return;
          case Closed =>
            Flush(worlds(n));
            stopped := true;
            StaysStopped(maxBatch, before, signals, worlds, n + 1);
            return;
          case Received(log) =>
            buf := buf + [log];
            received := received + [log];
            if |buf| >= maxBatch {
              Flush(worlds(n));
            }
          case Timer =>
            Flush(worlds(n));
        }
        NotStopped(maxBatch, Run(maxBatch, before, signals[..n], worlds), signals[n], worlds(n));
        n := n + 1;
      }
      assert signals[..n] == signals;
    }
  }

  lemma NotStopped(maxBatch: int, s: State, signal: Signal, w: World)
    requires !s.stopped && !signal.Stop? && !signal.Closed?
    ensures !Next(maxBatch, s, signal, w).stopped
  {
  }

  lemma {:induction false} StaysStopped(maxBatch: int, s: State, signals: seq<Signal>, worlds: nat -> World, n: nat)
    requires n <= |signals| && Run(maxBatch, s, signals[..n], worlds).stopped
    ensures Run(maxBatch, s, signals, worlds) == Run(maxBatch, s, signals[..n], worlds)
    decreases |signals|
  {
    if n == |signals| {
      assert signals[..n] == signals;
    } else {
      assert signals[..|signals| - 1][..n] == signals[..n];
      StaysStopped(maxBatch, s, signals[..|signals| - 1], worlds, n);
    }
  }
}
