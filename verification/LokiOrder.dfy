/** In which order the Loki sink sends (gateway/pkg/sink/loki/loki.go:179-246, 489-605): whatever the steps in
    between, the entries of one stream key leave and wait in the order in which they were accepted. */
module LokiOrders {
  import opened LokiChunks
  import opened LokiLabels
  import opened LokiProtocol

  ghost function KeyOfEntry(c: Config, e: Entry): string { KeyText(KeyLabels(c, e)) }

  /** The entries of one stream key. */
  ghost function OfKey(c: Config, es: seq<Entry>, key: string): seq<Entry> {
    if es == [] then []
    else OfKey(c, es[..|es| - 1], key) + if KeyOfEntry(c, es[|es| - 1]) == key then [es[|es| - 1]] else []
  }

  datatype Batch = Batch(key: string, entries: seq<Entry>)

  /** The batches popped in a run: batch i is the one under way as flight i. */
  ghost function Popped(c: Config, steps: seq<Step>): seq<Batch> {
    if steps == [] then []
    else
      var n := |steps| - 1;
      var s, step := Run(c, INIT, steps[..n]), steps[n];
      Popped(c, steps[..n])
      + if step.Popping? && Poppable(s, step.key) then [Batch(step.key, s.streams[step.key].entries)] else []
  }

  /** What has been popped for a key, batch after batch. */
  ghost function PoppedOf(bs: seq<Batch>, key: string): seq<Entry> {
    if bs == [] then []
    else PoppedOf(bs[..|bs| - 1], key) + if bs[|bs| - 1].key == key then bs[|bs| - 1].entries else []
  }

  function Waiting(s: State, key: string): seq<Entry> { if key in s.streams then s.streams[key].entries else [] }

  lemma OfKeyMore(c: Config, es: seq<Entry>, e: Entry, key: string)
    ensures OfKey(c, es + [e], key) == OfKey(c, es, key) + if KeyOfEntry(c, e) == key then [e] else []
  {
    assert (es + [e])[..|es|] == es;
  }

  lemma PoppedOfMore(bs: seq<Batch>, b: Batch, key: string)
    ensures PoppedOf(bs + [b], key) == PoppedOf(bs, key) + if b.key == key then b.entries else []
  {
    assert (bs + [b])[..|bs|] == bs;
  }

  lemma OfferWaits(c: Config, s: State, e: Entry, now: int, key: string)
    ensures var t := Offer(c, s, e, now);
            || (t.accepted == s.accepted && Waiting(t, key) == Waiting(s, key))
            || (&& t.accepted == s.accepted + [e]
                && Waiting(t, key) == Waiting(s, key) + if KeyOfEntry(c, e) == key then [e] else [])
  {
    hide KeyText, KeyLabels, Droppable, Size;
  }

  lemma PopWaits(s: State, popped: string, now: int, key: string)
    requires Poppable(s, popped)
    ensures var t := Pop(s, popped, now);
            && t.accepted == s.accepted && Waiting(t, key) == if popped == key then [] else Waiting(s, key)
  {
  }

  lemma SettleWaits(c: Config, s: State, i: nat, outcome: Outcome)
    requires Underway(s, i)
    ensures var t := Settle(c, s, i, outcome); t.accepted == s.accepted && t.streams == s.streams
  {
    hide Bytes, Cut;
  }

  /** For every key, what was popped and what waits is what was accepted, in order. */
  ghost predicate InLine(c: Config, bs: seq<Batch>, s: State, key: string) {
    PoppedOf(bs, key) + Waiting(s, key) == OfKey(c, s.accepted, key)
  }

  lemma OfferInLine(c: Config, bs: seq<Batch>, s: State, e: Entry, now: int, key: string)
    requires InLine(c, bs, s, key)
    ensures InLine(c, bs, Offer(c, s, e, now), key)
  {
    OfferWaits(c, s, e, now, key);
    OfKeyMore(c, s.accepted, e, key);
    hide Offer, KeyOfEntry, Waiting, OfKey;
  }

  lemma PopInLine(c: Config, bs: seq<Batch>, s: State, popped: string, now: int, key: string)
    requires InLine(c, bs, s, key) && Poppable(s, popped)
    ensures InLine(c, bs + [Batch(popped, s.streams[popped].entries)], Pop(s, popped, now), key)
  {
    var b, t := Batch(popped, s.streams[popped].entries), Pop(s, popped, now);
    PopWaits(s, popped, now, key);
    PoppedOfMore(bs, b, key);
    assert popped == key ==> Waiting(s, key) == b.entries;
    hide Pop, Waiting, OfKey, PoppedOf;
    if popped == key {
      assert PoppedOf(bs + [b], key) + [] == PoppedOf(bs, key) + b.entries;
    } else {
      assert PoppedOf(bs, key) + [] == PoppedOf(bs, key);
    }
  }

  lemma {:induction false} RunInLine(c: Config, steps: seq<Step>, key: string)
    ensures InLine(c, Popped(c, steps), Run(c, INIT, steps), key)
  {
    if steps != [] {
      var n := |steps| - 1;
      var bs, s := Popped(c, steps[..n]), Run(c, INIT, steps[..n]);
      RunInLine(c, steps[..n], key);
      hide Offer, Pop, Settle, InLine;
      match steps[n]
      case Offering(e, now) =>
        OfferInLine(c, bs, s, e, now, key);
        assert Popped(c, steps) == bs;
      case Popping(popped, now) =>
        if Poppable(s, popped) { PopInLine(c, bs, s, popped, now, key); } else { assert Popped(c, steps) == bs; }
      case Settling(i, outcome) =>
        assert Popped(c, steps) == bs;
        if Underway(s, i) { SettleInLine(c, bs, s, i, outcome, key); }
    }
  }

  lemma SettleInLine(c: Config, bs: seq<Batch>, s: State, i: nat, outcome: Outcome, key: string)
    requires InLine(c, bs, s, key) && Underway(s, i)
    ensures InLine(c, bs, Settle(c, s, i, outcome), key)
  {
    SettleWaits(c, s, i, outcome);
    hide Settle;
  }

  // ---------------------------------------------------------------- batches

  lemma {:induction false} ConcatMore(chunks: seq<seq<Entry>>, chunk: seq<Entry>)
    ensures Concat(chunks + [chunk]) == Concat(chunks) + chunk
  {
    if chunks == [] {
      assert [chunk][1..] == [];
    } else {
      ConcatMore(chunks[1..], chunk);
      assert (chunks + [chunk])[1..] == chunks[1..] + [chunk];
    }
  }

  /** The chunks of batch i that have ended, and what is left of it. */
  ghost function Sending(c: Config, steps: seq<Step>, i: nat): seq<Entry>
    requires i < |Run(c, INIT, steps).flights|
  {
    Concat(EndedOf(c, INIT, steps, i)) + Run(c, INIT, steps).flights[i].rest
  }

  lemma {:induction false} NotYetPopped(c: Config, steps: seq<Step>, i: nat)
    requires i >= |Run(c, INIT, steps).flights|
    ensures EndedOf(c, INIT, steps, i) == []
  {
    if steps != [] {
      FlightsGrow(c, Run(c, INIT, steps[..|steps| - 1]), steps[|steps| - 1]);
      hide Next;
      NotYetPopped(c, steps[..|steps| - 1], i);
    }
  }

  lemma FlightsGrow(c: Config, s: State, step: Step)
    ensures var t := Next(c, s, step);
            |t.flights| == |s.flights| + if step.Popping? && Poppable(s, step.key) then 1 else 0
  {
    hide KeyText, KeyLabels, Droppable, Bytes, Cut;
  }

  lemma SettleRest(c: Config, s: State, i: nat, outcome: Outcome)
    requires Underway(s, i)
    ensures var t := Settle(c, s, i, outcome);
            && |t.flights| == |s.flights| && s.flights[i].rest == Taken(c, s, i) + t.flights[i].rest
            && forall j | 0 <= j < |s.flights| && j != i :: t.flights[j] == s.flights[j]
  {
    hide Bytes, Cut;
  }

  /** The step leaves flight i as it is, or ends its next chunk. */
  lemma StepRest(c: Config, s: State, step: Step, i: nat)
    requires i < |s.flights|
    ensures var t := Next(c, s, step);
            && i < |t.flights|
            && s.flights[i].rest
            == (if step.Settling? && step.flight == i && Underway(s, i) then Taken(c, s, i) else [])
               + t.flights[i].rest
  {
    match step
    case Offering(e, now) => hide KeyText, KeyLabels, Droppable;
    case Popping(key, now) =>
    case Settling(j, outcome) =>
      if Underway(s, j) {
        SettleRest(c, s, j, outcome);
        hide Settle, Taken;
      }
  }

  lemma NewFlight(c: Config, s: State, key: string, now: int)
    requires Poppable(s, key)
    ensures Pop(s, key, now).flights[|s.flights|].rest == s.streams[key].entries
  {
  }

  /** A step ends the next chunk of batch i, or leaves it alone. */
  lemma SendingStep(c: Config, steps: seq<Step>, i: nat)
    requires steps != [] && i < |Run(c, INIT, steps[..|steps| - 1]).flights|
    ensures i < |Run(c, INIT, steps).flights|
    ensures Sending(c, steps, i) == Sending(c, steps[..|steps| - 1], i)
  {
    var n := |steps| - 1;
    var s, step, ended := Run(c, INIT, steps[..n]), steps[n], EndedOf(c, INIT, steps[..n], i);
    StepRest(c, s, step, i);
    assert Run(c, INIT, steps) == Next(c, s, step);
    if step.Settling? && step.flight == i && Underway(s, i) {
      assert EndedOf(c, INIT, steps, i) == ended + [Taken(c, s, i)];
      ConcatMore(ended, Taken(c, s, i));
      hide Next, Run, Taken, Concat, EndedOf, Underway;
      Regrouped(Concat(ended), Taken(c, s, i), Next(c, s, step).flights[i].rest);
    } else {
      assert EndedOf(c, INIT, steps, i) == ended;
      hide Next, Run, Taken, Concat, EndedOf, Underway;
      assert [] + Next(c, s, step).flights[i].rest == Next(c, s, step).flights[i].rest;
    }
  }

  lemma Regrouped(a: seq<Entry>, b: seq<Entry>, d: seq<Entry>)
    ensures a + (b + d) == a + b + d
  {
  }

  lemma SendingNew(c: Config, steps: seq<Step>)
    requires steps != []
    requires var s, step := Run(c, INIT, steps[..|steps| - 1]), steps[|steps| - 1];
             step.Popping? && Poppable(s, step.key)
    ensures var s, step := Run(c, INIT, steps[..|steps| - 1]), steps[|steps| - 1];
            && |s.flights| < |Run(c, INIT, steps).flights|
            && Sending(c, steps, |s.flights|) == s.streams[step.key].entries
  {
    var n := |steps| - 1;
    var s, step := Run(c, INIT, steps[..n]), steps[n];
    NotYetPopped(c, steps[..n], |s.flights|);
    NewFlight(c, s, step.key, step.now);
    assert EndedOf(c, INIT, steps, |s.flights|) == [];
    assert Concat([]) == [];
    assert Run(c, INIT, steps) == Pop(s, step.key, step.now);
    hide Run, EndedOf, Concat;
  }

  lemma {:induction false} PoppedAreFlights(c: Config, steps: seq<Step>)
    ensures |Popped(c, steps)| == |Run(c, INIT, steps).flights|
  {
    if steps != [] {
      PoppedAreFlights(c, steps[..|steps| - 1]);
      FlightsGrow(c, Run(c, INIT, steps[..|steps| - 1]), steps[|steps| - 1]);
      hide Next;
    }
  }

  lemma PoppedStep(c: Config, steps: seq<Step>)
    requires steps != []
    ensures var s, step := Run(c, INIT, steps[..|steps| - 1]), steps[|steps| - 1];
            Popped(c, steps)
            == Popped(c, steps[..|steps| - 1])
               + if step.Popping? && Poppable(s, step.key) then [Batch(step.key, s.streams[step.key].entries)] else []
  {
    hide Run;
  }

  /** However the steps interleave, a batch is sent from its first entry on, chunk by chunk. */
  lemma {:induction false} BatchInOrder(c: Config, steps: seq<Step>, i: nat)
    requires i < |Popped(c, steps)| == |Run(c, INIT, steps).flights|
    ensures Sending(c, steps, i) == Popped(c, steps)[i].entries
  {
    var n := |steps| - 1;
    PoppedAreFlights(c, steps[..n]);
    PoppedStep(c, steps);
    hide Run, Sending, Popped, EndedOf, Concat;
    if i < |Popped(c, steps[..n])| {
      BatchInOrder(c, steps[..n], i);
      SendingStep(c, steps, i);
    } else {
      SendingNew(c, steps);
    }
  }

  // ---------------------------------------------------------- the whole line

  /** For one key, its first n batches one after the other: of each, the ended chunks and then the rest. */
  ghost function Line(c: Config, steps: seq<Step>, key: string, n: nat): seq<Entry>
    requires n <= |Popped(c, steps)| == |Run(c, INIT, steps).flights|
  {
    if n == 0 then []
    else
      Line(c, steps, key, n - 1) + if Popped(c, steps)[n - 1].key == key then Sending(c, steps, n - 1) else []
  }

  lemma LineNext(c: Config, steps: seq<Step>, key: string, n: nat)
    requires 0 < n <= |Popped(c, steps)| == |Run(c, INIT, steps).flights|
    ensures Line(c, steps, key, n)
         == Line(c, steps, key, n - 1) + if Popped(c, steps)[n - 1].key == key then Sending(c, steps, n - 1) else []
  {
    hide Sending, Popped, Run;
  }

  lemma {:induction false} LineIsPopped(c: Config, steps: seq<Step>, key: string, n: nat)
    requires n <= |Popped(c, steps)| == |Run(c, INIT, steps).flights|
    ensures Line(c, steps, key, n) == PoppedOf(Popped(c, steps)[..n], key)
  {
    hide Sending, Popped, Run, Line;
    if n == 0 {
      LineNone(c, steps, key);
    } else {
      LineIsPopped(c, steps, key, n - 1);
      LineNext(c, steps, key, n);
      BatchInOrder(c, steps, n - 1);
      var bs := Popped(c, steps);
      assert bs[..n] == bs[..n - 1] + [bs[n - 1]];
      PoppedOfMore(bs[..n - 1], bs[n - 1], key);
      hide PoppedOf;
    }
  }

  lemma LineNone(c: Config, steps: seq<Step>, key: string)
    requires |Popped(c, steps)| == |Run(c, INIT, steps).flights|
    ensures Line(c, steps, key, 0) == PoppedOf(Popped(c, steps)[..0], key)
  {
  }

  /** Every interleaving keeps the order of each stream: its batches in the order of their pops, of each the
      ended chunks and then the rest, and behind them what waits, are the accepted entries of the key. */
  lemma RunInOrder(c: Config, steps: seq<Step>, key: string)
    ensures |Popped(c, steps)| == |Run(c, INIT, steps).flights|
    ensures var s := Run(c, INIT, steps);
            Line(c, steps, key, |s.flights|) + Waiting(s, key) == OfKey(c, s.accepted, key)
  {
    PoppedAreFlights(c, steps);
    var n := |Popped(c, steps)|;
    LineIsPopped(c, steps, key, n);
    assert Popped(c, steps)[..n] == Popped(c, steps);
    RunInLine(c, steps, key);
    hide Line, Popped, Run;
  }

  // ---------------------------------------------------------------- waiting

  function TimeOf(step: Step): int {
    match step
    case Offering(_, now) => now
    case Popping(_, now) => now
    case Settling(_, _) => 0
  }

  /** The clock under the lock does not go back. */
  ghost predicate Onward(steps: seq<Step>) {
    forall i, j | 0 <= i < j < |steps| && !steps[i].Settling? && !steps[j].Settling? ::
      TimeOf(steps[i]) <= TimeOf(steps[j])
  }

  /** No buffer has been pushed later than at a time. */
  ghost predicate PushedBy(s: State, now: int) { forall k | k in s.streams :: s.streams[k].lastPush <= now }

  lemma StepPushes(c: Config, s: State, step: Step, now: int)
    requires PushedBy(s, now) && (step.Settling? || TimeOf(step) <= now)
    ensures PushedBy(Next(c, s, step), now)
  {
    hide KeyText, KeyLabels, Droppable, Bytes, Cut;
  }

  lemma {:induction false} RunPushes(c: Config, steps: seq<Step>, now: int)
    requires forall i | 0 <= i < |steps| && !steps[i].Settling? :: TimeOf(steps[i]) <= now
    ensures PushedBy(Run(c, INIT, steps), now)
  {
    if steps != [] {
      hide Next, PushedBy, TimeOf;
      RunPushes(c, steps[..|steps| - 1], now);
      StepPushes(c, Run(c, INIT, steps[..|steps| - 1]), steps[|steps| - 1], now);
    } else {
      NothingPushed(now);
    }
  }

  lemma NothingPushed(now: int)
    ensures PushedBy(INIT, now)
  {
  }

  /** The buffer has not been pushed since a time. */
  ghost predicate Unpushed(s: State, key: string, now: int) { key in s.streams && s.streams[key].lastPush <= now }

  /** The offer at place i takes its entry in. */
  ghost predicate TakesIn(c: Config, steps: seq<Step>, i: nat) {
    i < |steps| && steps[i].Offering?
    && Run(c, INIT, steps[..i + 1]).accepted == Run(c, INIT, steps[..i]).accepted + [steps[i].e]
  }

  /** An accepted entry starts to wait no earlier than its buffer was last pushed. */
  lemma AcceptWaits(c: Config, s: State, e: Entry, now: int)
    requires PushedBy(s, now)
    ensures Unpushed(Accept(c, s, e, now), KeyOfEntry(c, e), now)
  {
    hide KeyText, KeyLabels;
  }

  lemma Accepted(c: Config, s: State, e: Entry, now: int)
    requires Next(c, s, Offering(e, now)).accepted == s.accepted + [e]
    ensures Next(c, s, Offering(e, now)) == Accept(c, s, e, now)
  {
    hide KeyText, KeyLabels, Droppable;
  }

  lemma StepLeaves(c: Config, s: State, step: Step, key: string, now: int)
    requires Unpushed(s, key, now) && !(step.Popping? && step.key == key)
    ensures Unpushed(Next(c, s, step), key, now)
  {
    hide KeyText, KeyLabels, Droppable, Bytes, Cut;
  }

  lemma RunLast(c: Config, steps: seq<Step>, m: nat)
    requires m < |steps|
    ensures Run(c, INIT, steps[..m + 1]) == Next(c, Run(c, INIT, steps[..m]), steps[m])
  {
    assert steps[..m + 1][..m] == steps[..m];
  }

  lemma StartsToWait(c: Config, steps: seq<Step>, i: nat)
    requires TakesIn(c, steps, i) && Onward(steps)
    ensures Unpushed(Run(c, INIT, steps[..i + 1]), KeyOfEntry(c, steps[i].e), steps[i].now)
  {
    var s, e, now := Run(c, INIT, steps[..i]), steps[i].e, steps[i].now;
    forall j | 0 <= j < i && !steps[..i][j].Settling? ensures TimeOf(steps[..i][j]) <= now {
      assert TimeOf(steps[j]) <= TimeOf(steps[i]);
    }
    RunPushes(c, steps[..i], now);
    RunLast(c, steps, i);
    hide Run, Accept, PushedBy, Unpushed, KeyOfEntry;
    Accepted(c, s, e, now);
    AcceptWaits(c, s, e, now);
  }

  lemma {:induction false} WaitsOn(c: Config, steps: seq<Step>, i: nat, m: nat)
    requires TakesIn(c, steps, i) && Onward(steps) && i < m <= |steps|
    requires forall j | i < j < m :: !(steps[j].Popping? && steps[j].key == KeyOfEntry(c, steps[i].e))
    ensures Unpushed(Run(c, INIT, steps[..m]), KeyOfEntry(c, steps[i].e), steps[i].now)
    decreases m
  {
    hide Run, Next, Unpushed, KeyOfEntry, Onward;
    if m == i + 1 {
      StartsToWait(c, steps, i);
    } else {
      WaitsOn(c, steps, i, m - 1);
      RunLast(c, steps, m - 1);
      StepLeaves(c, Run(c, INIT, steps[..m - 1]), steps[m - 1], KeyOfEntry(c, steps[i].e), steps[i].now);
    }
  }

  /** As long as its stream is not popped, an accepted entry has waited no longer than its buffer since the last
      push: what a round of flushes finds due by age, it finds in time for every entry. */
  lemma WaitsSincePush(c: Config, steps: seq<Step>, i: nat)
    requires TakesIn(c, steps, i) && Onward(steps)
    requires forall j | i < j < |steps| :: !(steps[j].Popping? && steps[j].key == KeyOfEntry(c, steps[i].e))
    ensures var s, key := Run(c, INIT, steps), KeyOfEntry(c, steps[i].e);
            key in s.streams && s.streams[key].lastPush <= steps[i].now
  {
    WaitsOn(c, steps, i, |steps|);
    assert steps[..|steps|] == steps;
    hide Run, KeyOfEntry, Onward;
  }

  // ------------------------------------------------------------------ labels

  /** The labels an entry gives to a buffer that it opens: all of its own if it came with a push request. */
  ghost function Given(c: Config, e: Entry): Labels { if e.pushed then e.labels else KeyLabels(c, e) }

  /** Every buffer goes under the labels that the first entry of its key gave. */
  ghost predicate Labelled(c: Config, s: State) {
    forall key ::
      if key in s.streams
      then OfKey(c, s.accepted, key) != [] && s.streams[key].labels == Given(c, OfKey(c, s.accepted, key)[0])
      else OfKey(c, s.accepted, key) == []
  }

  /** So does every batch. */
  ghost predicate BatchesLabelled(c: Config, bs: seq<Batch>, s: State) {
    && |bs| == |s.flights|
    && forall i | 0 <= i < |bs| :: var es := OfKey(c, s.accepted, bs[i].key);
                                   es != [] && s.flights[i].labels == Given(c, es[0])
  }

  lemma AcceptLabels(c: Config, s: State, e: Entry, now: int, key: string)
    ensures var t, own := Accept(c, s, e, now), KeyOfEntry(c, e);
            && (key in t.streams <==> key in s.streams || key == own)
            && (key in s.streams ==> t.streams[key].labels == s.streams[key].labels)
            && (key !in s.streams && key == own ==> t.streams[key].labels == Given(c, e))
            && t.accepted == s.accepted + [e] && t.flights == s.flights
  {
    hide KeyText, KeyLabels;
  }

  lemma AcceptLabelled(c: Config, bs: seq<Batch>, s: State, e: Entry, now: int)
    requires Labelled(c, s) && BatchesLabelled(c, bs, s)
    ensures Labelled(c, Accept(c, s, e, now)) && BatchesLabelled(c, bs, Accept(c, s, e, now))
  {
    var t := Accept(c, s, e, now);
    hide Accept, OfKey, KeyOfEntry, Given;
    forall key ensures if key in t.streams
                       then OfKey(c, t.accepted, key) != []
                            && t.streams[key].labels == Given(c, OfKey(c, t.accepted, key)[0])
                       else OfKey(c, t.accepted, key) == []
    {
      AcceptLabels(c, s, e, now, key);
      OfKeyMore(c, s.accepted, e, key);
    }
    AcceptLabels(c, s, e, now, "");
    forall i | 0 <= i < |bs|
      ensures var es := OfKey(c, t.accepted, bs[i].key); es != [] && t.flights[i].labels == Given(c, es[0])
    {
      OfKeyMore(c, s.accepted, e, bs[i].key);
    }
  }

  lemma PopLabelled(c: Config, bs: seq<Batch>, s: State, key: string, now: int)
    requires Labelled(c, s) && BatchesLabelled(c, bs, s) && Poppable(s, key)
    ensures var t := Pop(s, key, now);
            Labelled(c, t) && BatchesLabelled(c, bs + [Batch(key, s.streams[key].entries)], t)
  {
    hide OfKey, Given;
  }

  lemma SettleLabelled(c: Config, bs: seq<Batch>, s: State, i: nat, outcome: Outcome)
    requires Labelled(c, s) && BatchesLabelled(c, bs, s) && Underway(s, i)
    ensures Labelled(c, Settle(c, s, i, outcome)) && BatchesLabelled(c, bs, Settle(c, s, i, outcome))
  {
    SettleWaits(c, s, i, outcome);
    SettleLabels(c, s, i, outcome);
    hide Settle, OfKey, Given;
  }

  lemma SettleLabels(c: Config, s: State, i: nat, outcome: Outcome)
    requires Underway(s, i)
    ensures var t := Settle(c, s, i, outcome);
            && |t.flights| == |s.flights| && |t.done| == |s.done| + 1
            && t.done[|s.done|].labels == s.flights[i].labels
            && forall j | 0 <= j < |s.flights| :: t.flights[j].labels == s.flights[j].labels
  {
    hide Bytes, Cut;
  }

  /** In every interleaving, what is buffered or sent goes under the labels given by the first accepted entry of its
      key: the full ones of a push request, the keyed ones otherwise. */
  lemma {:induction false} RunLabelled(c: Config, steps: seq<Step>)
    ensures Labelled(c, Run(c, INIT, steps)) && BatchesLabelled(c, Popped(c, steps), Run(c, INIT, steps))
  {
    if steps != [] {
      var n := |steps| - 1;
      var bs, s := Popped(c, steps[..n]), Run(c, INIT, steps[..n]);
      RunLabelled(c, steps[..n]);
      PoppedStep(c, steps);
      assert Run(c, INIT, steps) == Next(c, s, steps[n]);
      hide Accept, Pop, Settle, Labelled, BatchesLabelled, Popped, Run, Droppable;
      match steps[n]
      case Offering(e, now) =>
        AcceptLabelled(c, bs, s, e, now);
        DropLabelled(c, bs, s, e);
        assert bs + [] == bs;
      case Popping(key, now) =>
        assert bs + [] == bs;
        if Poppable(s, key) { PopLabelled(c, bs, s, key, now); }
      case Settling(i, outcome) =>
        assert bs + [] == bs;
        if Underway(s, i) { SettleLabelled(c, bs, s, i, outcome); }
    } else {
      assert Popped(c, []) == [];
    }
  }

  lemma DropLabelled(c: Config, bs: seq<Batch>, s: State, e: Entry)
    requires Labelled(c, s) && BatchesLabelled(c, bs, s)
    ensures Labelled(c, s.(dropped := s.dropped + [e])) && BatchesLabelled(c, bs, s.(dropped := s.dropped + [e]))
  {
    hide OfKey, Given;
  }
}
