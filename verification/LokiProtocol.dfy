/** The buffer of the Loki sink as a protocol (gateway/pkg/sink/loki/loki.go).  The steps are the
    sections the sink runs under its lock: take one entry in, pop the buffer of a stream, settle one
    chunk of a popped batch.  Any number of flushers may be between a pop and its last chunk while
    other callers put entries in. */
module LokiProtocol {
  import opened GoStrings
  import opened LokiConfigured
  import opened LokiKeys
  import opened LokiLabels

  // ------------------------------------------------------------------ state

  newtype Byte = x: int | 0 <= x < 256

  /** pushed: the entry came with a push request, not through Enqueue. */
  datatype Entry = Entry(timestamp: int, labels: Labels, line: seq<Byte>, pushed: bool)

  datatype Config = Config(
    maxBatchBytes: int, maxBatchEntries: int, maxBufferBytes: int, maxBufferEntries: int,
    flushInterval: int, dropDebugFirst: bool, protectInfo: bool, staticLabels: Labels)

  datatype Buffer = Buffer(labels: Labels, entries: seq<Entry>, bytes: int, lastPush: int)

  /** What is left to send of a popped batch. */
  datatype Flight = Flight(labels: Labels, rest: seq<Entry>)

  datatype Outcome = EncodeError | Sent | Failed

  datatype Chunk = Chunk(labels: Labels, entries: seq<Entry>, outcome: Outcome)

  /** The last four fields record what the program does not: batches under way, chunks done,
      entries taken in and entries turned away. */
  datatype State = State(
    streams: map<string, Buffer>, usedBytes: int, usedEntries: int,
    flights: seq<Flight>, done: seq<Chunk>, accepted: seq<Entry>, dropped: seq<Entry>)

  const INIT := State(map[], 0, 0, [], [], [], [])

  function Size(e: Entry): nat { |e.line| + 32 }

  function Bytes(es: seq<Entry>): nat {
    if es == [] then 0 else Bytes(es[..|es| - 1]) + Size(es[|es| - 1])
  }

  // --------------------------------------------------------------- severity

  function Lookup(labels: Labels, k: string): string { if k in labels then labels[k] else "" }

  /** A push request without a severity counts as info. */
  function Severity(e: Entry): string {
    var sev := ToLower(Lookup(e.labels, "severity"));
    if e.pushed && sev == "" then "info" else sev
  }

  predicate ShouldDrop(c: Config, sev: string) {
    if c.dropDebugFirst then sev == "debug" || (sev == "info" && !c.protectInfo) else sev == "debug"
  }

  predicate Droppable(c: Config, e: Entry) { ShouldDrop(c, Severity(e)) }

  /** What the labels say: debug, or info, for which a push request without a severity counts, too. */
  predicate SaysDebug(e: Entry) { "severity" in e.labels && ToLower(e.labels["severity"]) == "debug" }

  predicate SaysInfo(e: Entry) {
    || ("severity" in e.labels && ToLower(e.labels["severity"]) == "info")
    || (e.pushed && ("severity" !in e.labels || e.labels["severity"] == ""))
  }

  /** The promise of the policy: debug may go, and info if it is not protected. */
  predicate Expendable(c: Config, e: Entry) { SaysDebug(e) || (SaysInfo(e) && c.dropDebugFirst && !c.protectInfo) }

  lemma DroppableExactly(c: Config, e: Entry)
    ensures Droppable(c, e) <==> Expendable(c, e)
  {
    if "severity" in e.labels { assert |ToLower(e.labels["severity"])| == |e.labels["severity"]|; }
  }

  predicate UnderPressure(c: Config, usedBytes: int, usedEntries: int) {
    usedBytes >= c.maxBufferBytes || usedEntries >= c.maxBufferEntries
  }

  // ------------------------------------------------------------------ steps

  ghost function KeyLabels(c: Config, e: Entry): Labels {
    StreamLabels(e.labels, if e.pushed then map[] else c.staticLabels)
  }

  /** A push request stores the full labels, though it is keyed on five of them. */
  ghost function BufferFor(c: Config, s: State, e: Entry, now: int): Buffer {
    var key := KeyText(KeyLabels(c, e));
    if key in s.streams then s.streams[key]
    else Buffer(if e.pushed then e.labels else KeyLabels(c, e), [], 0, now)
  }

  function Appended(b: Buffer, e: Entry): Buffer {
    b.(entries := b.entries + [e], bytes := b.bytes + Size(e))
  }

  ghost function Accept(c: Config, s: State, e: Entry, now: int): State {
    s.(streams := s.streams[KeyText(KeyLabels(c, e)) := Appended(BufferFor(c, s, e, now), e)],
       usedBytes := s.usedBytes + Size(e), usedEntries := s.usedEntries + 1, accepted := s.accepted + [e])
  }

  ghost function Offer(c: Config, s: State, e: Entry, now: int): State {
    if UnderPressure(c, s.usedBytes, s.usedEntries) && Droppable(c, e)
    then s.(dropped := s.dropped + [e])
    else Accept(c, s, e, now)
  }

  predicate Poppable(s: State, key: string) { key in s.streams && s.streams[key].entries != [] }

  function Emptied(b: Buffer, now: int): Buffer { b.(entries := [], bytes := 0, lastPush := now) }

  ghost function Pop(s: State, key: string, now: int): State
    requires Poppable(s, key)
  {
    var b := s.streams[key];
    s.(streams := s.streams[key := Emptied(b, now)], flights := s.flights + [Flight(b.labels, b.entries)])
  }

  /** How many entries the next chunk takes. */
  function Cut(es: seq<Entry>, maxEntries: int, maxBytes: int): (n: nat)
    ensures n <= |es|
  {
    if es == [] || maxEntries <= 0 then 0
    else if Size(es[0]) >= maxBytes then 1
    else 1 + Cut(es[1..], maxEntries - 1, maxBytes - Size(es[0]))
  }

  function ChunkSize(c: Config, es: seq<Entry>): (n: nat)
    ensures n <= |es|
  {
    Cut(es, c.maxBatchEntries, c.maxBatchBytes)
  }

  predicate Underway(s: State, i: nat) { i < |s.flights| && s.flights[i].rest != [] }

  /** Only an encoding error leaves the counters as they are. */
  ghost function Settle(c: Config, s: State, i: nat, outcome: Outcome): State
    requires Underway(s, i)
  {
    var f := s.flights[i];
    var n := ChunkSize(c, f.rest);
    var t := s.(flights := s.flights[i := f.(rest := f.rest[n..])],
                done := s.done + [Chunk(f.labels, f.rest[..n], outcome)]);
    if outcome.EncodeError? then t
    else t.(usedBytes := s.usedBytes - Bytes(f.rest[..n]), usedEntries := s.usedEntries - n)
  }

  datatype Step =
    | Offering(e: Entry, now: int)
    | Popping(key: string, now: int)
    | Settling(flight: nat, outcome: Outcome)

  ghost function Next(c: Config, s: State, step: Step): State {
    match step
    case Offering(e, now) => Offer(c, s, e, now)
    case Popping(key, now) => if Poppable(s, key) then Pop(s, key, now) else s
    case Settling(i, outcome) => if Underway(s, i) then Settle(c, s, i, outcome) else s
  }

  ghost function Run(c: Config, s: State, steps: seq<Step>): State {
    if steps == [] then s else Next(c, Run(c, s, steps[..|steps| - 1]), steps[|steps| - 1])
  }

  // ------------------------------------------------------- where entries are

  ghost function Buffered(streams: map<string, Buffer>): multiset<Entry> {
    if streams == map[] then multiset{}
    else
      assert streams.Keys != {};
      var k :| k in streams;
      multiset(streams[k].entries) + Buffered(streams - {k})
  }

  ghost function InFlight(flights: seq<Flight>): multiset<Entry> {
    if flights == [] then multiset{}
    else InFlight(flights[..|flights| - 1]) + multiset(flights[|flights| - 1].rest)
  }

  ghost function Ended(done: seq<Chunk>, outcome: Outcome): multiset<Entry> {
    if done == [] then multiset{}
    else
      var last := done[|done| - 1];
      Ended(done[..|done| - 1], outcome) + if last.outcome == outcome then multiset(last.entries) else multiset{}
  }

  /** The entries the counters stand for. */
  ghost function Held(s: State): multiset<Entry> {
    Buffered(s.streams) + InFlight(s.flights) + Ended(s.done, EncodeError)
  }

  // ---------------------------------------------------------------- weights

  ghost function Weigh(m: multiset<Entry>, w: Entry -> nat): nat {
    if m == multiset{} then 0
    else
      var e :| e in m;
      w(e) + Weigh(m - multiset{e}, w)
  }

  lemma {:induction false} WeighPick(m: multiset<Entry>, w: Entry -> nat, e: Entry)
    requires e in m
    ensures Weigh(m, w) == w(e) + Weigh(m - multiset{e}, w)
    decreases |m|
  {
    var d :| d in m && Weigh(m, w) == w(d) + Weigh(m - multiset{d}, w);
    if d != e {
      WeighPick(m - multiset{d}, w, e);
      WeighPick(m - multiset{e}, w, d);
      assert m - multiset{d} - multiset{e} == m - multiset{e} - multiset{d};
    }
  }

  lemma WeighOne(m: multiset<Entry>, w: Entry -> nat, e: Entry)
    ensures Weigh(m + multiset{e}, w) == Weigh(m, w) + w(e)
  {
    WeighPick(m + multiset{e}, w, e);
    assert m + multiset{e} - multiset{e} == m;
  }

  lemma {:induction false} WeighMore(m: multiset<Entry>, w: Entry -> nat, es: seq<Entry>)
    ensures Weigh(m + multiset(es), w) == Weigh(m, w) + Weigh(multiset(es), w)
  {
    if es == [] {
      assert m + multiset(es) == m;
    } else {
      var fs, e := es[..|es| - 1], es[|es| - 1];
      assert es == fs + [e];
      WeighMore(m, w, fs);
      WeighOne(m + multiset(fs), w, e);
      WeighOne(multiset(fs), w, e);
      assert m + multiset(fs) + multiset{e} == m + multiset(es);
    }
  }

  lemma {:induction false} WeighSize(es: seq<Entry>)
    ensures Weigh(multiset(es), Size) == Bytes(es)
  {
    if es != [] {
      var fs, e := es[..|es| - 1], es[|es| - 1];
      assert es == fs + [e];
      WeighSize(fs);
      WeighOne(multiset(fs), Size, e);
    }
  }

  // ------------------------------------------------------------------ moves

  lemma {:induction false} BufferedPick(streams: map<string, Buffer>, k: string)
    requires k in streams
    ensures Buffered(streams) == multiset(streams[k].entries) + Buffered(streams - {k})
    decreases |streams|
  {
    var l :| l in streams && Buffered(streams) == multiset(streams[l].entries) + Buffered(streams - {l});
    if l != k {
      BufferedPick(streams - {l}, k);
      BufferedPick(streams - {k}, l);
      assert streams - {l} - {k} == streams - {k} - {l};
    }
  }

  lemma BufferedUpdate(streams: map<string, Buffer>, k: string, b: Buffer)
    ensures Buffered(streams[k := b]) == multiset(b.entries) + Buffered(streams - {k})
  {
    BufferedPick(streams[k := b], k);
    assert streams[k := b] - {k} == streams - {k};
  }

  lemma SumsAlike(a: multiset<Entry>, r: multiset<Entry>, b: multiset<Entry>, f: multiset<Entry>, l: multiset<Entry>)
    requires a + r == b + f
    ensures a + l + r == b + l + f
  {
    assert a + l + r == a + r + l;
    assert b + l + f == b + f + l;
  }

  lemma SumsCancel(a: multiset<Entry>, m: multiset<Entry>, r: multiset<Entry>, b: multiset<Entry>)
    requires a + (m + r) == b + r
    ensures b == a + m
  {
    assert a + (m + r) - r == a + m;
    assert b + r - r == b;
  }

  lemma {:induction false} InFlightUpdate(flights: seq<Flight>, i: nat, f: Flight)
    requires i < |flights|
    ensures InFlight(flights[i := f]) + multiset(flights[i].rest) == InFlight(flights) + multiset(f.rest)
  {
    var n := |flights| - 1;
    if i < n {
      InFlightUpdate(flights[..n], i, f);
      assert flights[i := f][..n] == flights[..n][i := f];
      SumsAlike(InFlight(flights[..n][i := f]), multiset(flights[i].rest), InFlight(flights[..n]), multiset(f.rest),
        multiset(flights[n].rest));
    } else {
      assert flights[i := f][..n] == flights[..n];
    }
  }

  lemma BufferedAccept(streams: map<string, Buffer>, key: string, b: Buffer, e: Entry)
    requires if key in streams then b == streams[key] else b.entries == []
    ensures Buffered(streams[key := Appended(b, e)]) == Buffered(streams) + multiset{e}
  {
    BufferedUpdate(streams, key, Appended(b, e));
    if key in streams {
      BufferedPick(streams, key);
    } else {
      assert streams - {key} == streams;
    }
  }

  lemma AcceptHolds(c: Config, s: State, e: Entry, now: int)
    ensures Held(Accept(c, s, e, now)) == Held(s) + multiset{e}
  {
    hide Buffered, InFlight, Ended, KeyText, KeyLabels;
    BufferedAccept(s.streams, KeyText(KeyLabels(c, e)), BufferFor(c, s, e, now), e);
  }

  lemma BufferedPop(streams: map<string, Buffer>, key: string, now: int)
    requires key in streams
    ensures Buffered(streams) == Buffered(streams[key := Emptied(streams[key], now)]) + multiset(streams[key].entries)
  {
    BufferedUpdate(streams, key, Emptied(streams[key], now));
    BufferedPick(streams, key);
  }

  lemma InFlightMore(flights: seq<Flight>, f: Flight)
    ensures InFlight(flights + [f]) == InFlight(flights) + multiset(f.rest)
  {
    assert (flights + [f])[..|flights|] == flights;
  }

  lemma PopHolds(s: State, key: string, now: int)
    requires Poppable(s, key)
    ensures Held(Pop(s, key, now)) == Held(s)
    ensures Pop(s, key, now).usedBytes == s.usedBytes && Pop(s, key, now).usedEntries == s.usedEntries
  {
    hide Buffered, InFlight, Ended;
    BufferedPop(s.streams, key, now);
    InFlightMore(s.flights, Flight(s.streams[key].labels, s.streams[key].entries));
  }

  function Taken(c: Config, s: State, i: nat): seq<Entry>
    requires Underway(s, i)
  {
    s.flights[i].rest[..ChunkSize(c, s.flights[i].rest)]
  }

  lemma EndedMore(done: seq<Chunk>, chunk: Chunk, o: Outcome)
    ensures Ended(done + [chunk], o)
         == Ended(done, o) + if o == chunk.outcome then multiset(chunk.entries) else multiset{}
  {
    assert (done + [chunk])[..|done|] == done;
  }

  lemma SettleTakes(c: Config, s: State, i: nat, outcome: Outcome)
    requires Underway(s, i)
    ensures InFlight(s.flights) == InFlight(Settle(c, s, i, outcome).flights) + multiset(Taken(c, s, i))
  {
    hide InFlight, Cut;
    var f := s.flights[i];
    var n := ChunkSize(c, f.rest);
    InFlightUpdate(s.flights, i, f.(rest := f.rest[n..]));
    assert f.rest == f.rest[..n] + f.rest[n..];
    SumsCancel(InFlight(Settle(c, s, i, outcome).flights), multiset(f.rest[..n]), multiset(f.rest[n..]),
      InFlight(s.flights));
  }

  lemma SettleEnds(c: Config, s: State, i: nat, outcome: Outcome, o: Outcome)
    requires Underway(s, i)
    ensures Ended(Settle(c, s, i, outcome).done, o)
         == Ended(s.done, o) + if o == outcome then multiset(Taken(c, s, i)) else multiset{}
  {
    hide Ended, Cut;
    EndedMore(s.done, Chunk(s.flights[i].labels, Taken(c, s, i), outcome), o);
  }

  lemma SettleHolds(c: Config, s: State, i: nat, outcome: Outcome)
    requires Underway(s, i)
    ensures var t := Settle(c, s, i, outcome);
            Held(s) == Held(t) + if outcome.EncodeError? then multiset{} else multiset(Taken(c, s, i))
  {
    hide InFlight, Ended, Cut, Taken;
    SettleTakes(c, s, i, outcome);
    SettleEnds(c, s, i, outcome, EncodeError);
    assert Settle(c, s, i, outcome).streams == s.streams;
    hide Settle;
  }

  // --------------------------------------------------------------- accounts

  ghost predicate CountersExact(s: State) {
    && s.usedEntries == |Held(s)|
    && s.usedBytes == Weigh(Held(s), Size)
  }

  ghost predicate BuffersExact(s: State) {
    forall k | k in s.streams :: s.streams[k].bytes == Bytes(s.streams[k].entries)
  }

  /** Every accepted entry is in a buffer, under way, skipped, sent or given up, and in one of these only. */
  ghost predicate InOnePlace(s: State) {
    multiset(s.accepted) == Held(s) + Ended(s.done, Sent) + Ended(s.done, Failed)
  }

  lemma AcceptCounts(c: Config, s: State, e: Entry, now: int)
    requires CountersExact(s)
    ensures CountersExact(Accept(c, s, e, now))
  {
    AcceptHolds(c, s, e, now);
    WeighOne(Held(s), Size, e);
    hide Held, Weigh;
  }

  lemma SettleFields(c: Config, s: State, i: nat, outcome: Outcome)
    requires Underway(s, i)
    ensures var t, gone := Settle(c, s, i, outcome), if outcome.EncodeError? then [] else Taken(c, s, i);
            && t.usedEntries == s.usedEntries - |gone| && t.usedBytes == s.usedBytes - Bytes(gone)
            && Held(s) == Held(t) + multiset(gone)
            && t.streams == s.streams && t.accepted == s.accepted && t.dropped == s.dropped
  {
    SettleHolds(c, s, i, outcome);
    assert Bytes([]) == 0;
    hide Held, Bytes, Cut;
  }

  lemma WeighLess(m: multiset<Entry>, n: multiset<Entry>, es: seq<Entry>, w: Entry -> nat)
    requires m == n + multiset(es)
    ensures Weigh(m, w) == Weigh(n, w) + Weigh(multiset(es), w)
  {
    WeighMore(n, w, es);
  }

  lemma SettleCounts(c: Config, s: State, i: nat, outcome: Outcome)
    requires CountersExact(s) && Underway(s, i)
    ensures CountersExact(Settle(c, s, i, outcome))
  {
    var t, gone := Settle(c, s, i, outcome), if outcome.EncodeError? then [] else Taken(c, s, i);
    SettleFields(c, s, i, outcome);
    WeighLess(Held(s), Held(t), gone, Size);
    WeighSize(gone);
    assert |multiset(gone)| == |gone|;
    hide Held, Weigh, Bytes, Cut, Settle, Taken;
  }

  lemma AcceptPlaces(c: Config, s: State, e: Entry, now: int)
    requires InOnePlace(s)
    ensures InOnePlace(Accept(c, s, e, now))
  {
    AcceptHolds(c, s, e, now);
    hide Held, Ended;
  }

  lemma PlacesSent(t: multiset<Entry>, m: multiset<Entry>, x: multiset<Entry>, y: multiset<Entry>)
    ensures t + m + x + y == t + (x + m) + y
  {
  }

  lemma PlacesFailed(t: multiset<Entry>, m: multiset<Entry>, x: multiset<Entry>, y: multiset<Entry>)
    ensures t + m + x + y == t + x + (y + m)
  {
  }

  lemma AddNothing(m: multiset<Entry>)
    ensures m + multiset{} == m
  {
  }

  lemma SettlePlaces(c: Config, s: State, i: nat, outcome: Outcome)
    requires InOnePlace(s) && Underway(s, i)
    ensures InOnePlace(Settle(c, s, i, outcome))
  {
    hide Held, Ended, Taken, Cut, Bytes;
    var t, m := Settle(c, s, i, outcome), multiset(Taken(c, s, i));
    assert t.accepted == s.accepted;
    hide Settle;
    var x, y := Ended(s.done, Sent), Ended(s.done, Failed);
    SettleHolds(c, s, i, outcome);
    SettleEnds(c, s, i, outcome, Sent);
    SettleEnds(c, s, i, outcome, Failed);
    AddNothing(Held(t));
    AddNothing(x);
    AddNothing(y);
    PlacesSent(Held(t), m, x, y);
    PlacesFailed(Held(t), m, x, y);
    match outcome
    case EncodeError => assert Ended(t.done, Sent) == x && Ended(t.done, Failed) == y && Held(s) == Held(t);
    case Sent => assert Ended(t.done, Sent) == x + m && Ended(t.done, Failed) == y && Held(s) == Held(t) + m;
    case Failed => assert Ended(t.done, Sent) == x && Ended(t.done, Failed) == y + m && Held(s) == Held(t) + m;
  }

  // ----------------------------------------------------------------- bounds

  function One(e: Entry): nat { 1 }

  ghost function DroppableOne(c: Config): Entry -> nat { e => if Expendable(c, e) then 1 else 0 }

  ghost function KeptOne(c: Config): Entry -> nat { e => if Expendable(c, e) then 0 else 1 }

  ghost function DroppableSize(c: Config): Entry -> nat { e => if Expendable(c, e) then Size(e) else 0 }

  ghost function KeptSize(c: Config): Entry -> nat { e => if Expendable(c, e) then 0 else Size(e) }

  lemma {:induction false} WeighSplit(m: multiset<Entry>, w: Entry -> nat, u: Entry -> nat, v: Entry -> nat)
    requires forall e :: w(e) == u(e) + v(e)
    ensures Weigh(m, w) == Weigh(m, u) + Weigh(m, v)
    decreases |m|
  {
    if m != multiset{} {
      var e :| e in m;
      WeighPick(m, w, e);
      WeighPick(m, u, e);
      WeighPick(m, v, e);
      WeighSplit(m - multiset{e}, w, u, v);
    }
  }

  lemma {:induction false} WeighOnes(m: multiset<Entry>)
    ensures Weigh(m, One) == |m|
    decreases |m|
  {
    if m != multiset{} {
      var e :| e in m;
      WeighPick(m, One, e);
      WeighOnes(m - multiset{e});
    }
  }

  /** Droppable and kept entries make up a multiset. */
  lemma Parts(c: Config, m: multiset<Entry>)
    ensures |m| == Weigh(m, DroppableOne(c)) + Weigh(m, KeptOne(c))
    ensures Weigh(m, Size) == Weigh(m, DroppableSize(c)) + Weigh(m, KeptSize(c))
  {
    WeighOnes(m);
    WeighSplit(m, One, DroppableOne(c), KeptOne(c));
    WeighSplit(m, Size, DroppableSize(c), KeptSize(c));
  }

  function Max(a: int, b: int): int { if a < b then b else a }

  /** The size of the largest droppable entry. */
  function Largest(c: Config, es: seq<Entry>): nat {
    if es == [] then 0
    else
      var before, e := Largest(c, es[..|es| - 1]), es[|es| - 1];
      if Expendable(c, e) then Max(before, Size(e)) else before
  }

  /** The buffer limits hold for what may be dropped; bytes may run over by one entry. */
  ghost predicate Within(c: Config, held: multiset<Entry>, largest: nat) {
    && Weigh(held, DroppableOne(c)) <= Max(0, c.maxBufferEntries)
    && Weigh(held, DroppableSize(c)) <= Max(0, c.maxBufferBytes - 1 + largest)
  }

  ghost predicate Bounded(c: Config, s: State) { Within(c, Held(s), Largest(c, s.accepted)) }

  lemma WithinMore(c: Config, held: multiset<Entry>, largest: nat, e: Entry)
    requires Within(c, held, largest)
    requires Expendable(c, e) ==> |held| < c.maxBufferEntries && Weigh(held, Size) < c.maxBufferBytes
    ensures Within(c, held + multiset{e}, if Expendable(c, e) then Max(largest, Size(e)) else largest)
  {
    WeighOne(held, DroppableOne(c), e);
    WeighOne(held, DroppableSize(c), e);
    Parts(c, held);
    hide Weigh, Expendable, Size, KeptOne, KeptSize;
  }

  lemma WithinLess(c: Config, held: multiset<Entry>, less: multiset<Entry>, es: seq<Entry>, largest: nat)
    requires Within(c, held, largest) && held == less + multiset(es)
    ensures Within(c, less, largest)
  {
    WeighLess(held, less, es, DroppableOne(c));
    WeighLess(held, less, es, DroppableSize(c));
    hide Weigh, DroppableOne, DroppableSize;
  }

  lemma LargestMore(c: Config, es: seq<Entry>, e: Entry)
    ensures Largest(c, es + [e]) == if Expendable(c, e) then Max(Largest(c, es), Size(e)) else Largest(c, es)
  {
    assert (es + [e])[..|es|] == es;
  }

  lemma AcceptBounded(c: Config, s: State, e: Entry, now: int)
    requires CountersExact(s) && Bounded(c, s)
    requires Expendable(c, e) ==> !UnderPressure(c, s.usedBytes, s.usedEntries)
    ensures Bounded(c, Accept(c, s, e, now))
  {
    var t := Accept(c, s, e, now);
    AcceptHolds(c, s, e, now);
    LargestMore(c, s.accepted, e);
    assert t.accepted == s.accepted + [e];
    hide Held, Weigh, Expendable, Droppable, Largest, Accept, Size, Within;
    WithinMore(c, Held(s), Largest(c, s.accepted), e);
  }

  lemma SettleBounded(c: Config, s: State, i: nat, outcome: Outcome)
    requires Bounded(c, s) && Underway(s, i)
    ensures Bounded(c, Settle(c, s, i, outcome))
  {
    hide Held, Settle, Largest, Taken, Within, Bytes;
    var t, gone := Settle(c, s, i, outcome), if outcome.EncodeError? then [] else Taken(c, s, i);
    SettleFields(c, s, i, outcome);
    WithinLess(c, Held(s), Held(t), gone, Largest(c, s.accepted));
  }

  // ------------------------------------------------------- every interleaving

  ghost predicate OnlyDroppable(c: Config, es: seq<Entry>) {
    forall e | e in es :: Droppable(c, e)
  }

  ghost predicate Sound(c: Config, s: State) {
    CountersExact(s) && BuffersExact(s) && InOnePlace(s) && Bounded(c, s) && OnlyDroppable(c, s.dropped)
  }

  lemma BytesMore(es: seq<Entry>, e: Entry)
    ensures Bytes(es + [e]) == Bytes(es) + Size(e)
  {
    assert (es + [e])[..|es|] == es;
  }

  lemma AcceptBuffers(c: Config, s: State, e: Entry, now: int)
    requires BuffersExact(s)
    ensures BuffersExact(Accept(c, s, e, now))
  {
    BytesMore(BufferFor(c, s, e, now).entries, e);
    assert Bytes([]) == 0;
    hide KeyText, KeyLabels, Bytes;
  }

  lemma OfferKeeps(c: Config, s: State, e: Entry, now: int)
    requires Sound(c, s)
    ensures Sound(c, Offer(c, s, e, now))
  {
    hide CountersExact, BuffersExact, InOnePlace, Bounded;
    DroppableExactly(c, e);
    if UnderPressure(c, s.usedBytes, s.usedEntries) && Droppable(c, e) {
      SameBesidesDropped(c, s, Offer(c, s, e, now));
    } else {
      AcceptCounts(c, s, e, now);
      AcceptBuffers(c, s, e, now);
      AcceptPlaces(c, s, e, now);
      AcceptBounded(c, s, e, now);
      assert Accept(c, s, e, now).dropped == s.dropped;
    }
  }

  lemma SameBesidesDropped(c: Config, s: State, t: State)
    requires t == s.(dropped := t.dropped)
    ensures CountersExact(s) ==> CountersExact(t)
    ensures BuffersExact(s) ==> BuffersExact(t)
    ensures InOnePlace(s) ==> InOnePlace(t)
    ensures Bounded(c, s) ==> Bounded(c, t)
  {
    assert Held(s) == Held(t);
    hide Held, Weigh, Ended, Largest;
  }

  lemma PopKeeps(c: Config, s: State, key: string, now: int)
    requires Sound(c, s) && Poppable(s, key)
    ensures Sound(c, Pop(s, key, now))
  {
    PopHolds(s, key, now);
    hide Held, Weigh, Ended, Largest, Droppable;
  }

  lemma SettleKeeps(c: Config, s: State, i: nat, outcome: Outcome)
    requires Sound(c, s) && Underway(s, i)
    ensures Sound(c, Settle(c, s, i, outcome))
  {
    hide CountersExact, InOnePlace, Bounded, Settle, Droppable, Bytes;
    SettleCounts(c, s, i, outcome);
    SettlePlaces(c, s, i, outcome);
    SettleBounded(c, s, i, outcome);
    SettleLeaves(c, s, i, outcome);
  }

  lemma SettleLeaves(c: Config, s: State, i: nat, outcome: Outcome)
    requires Underway(s, i)
    ensures var t := Settle(c, s, i, outcome); t.streams == s.streams && t.dropped == s.dropped
  {
    hide Bytes, Cut;
  }

  lemma StepKeeps(c: Config, s: State, step: Step)
    requires Sound(c, s)
    ensures Sound(c, Next(c, s, step))
  {
    hide Sound, Offer, Pop, Settle;
    match step
    case Offering(e, now) => OfferKeeps(c, s, e, now);
    case Popping(key, now) => if Poppable(s, key) { PopKeeps(c, s, key, now); }
    case Settling(i, outcome) => if Underway(s, i) { SettleKeeps(c, s, i, outcome); }
  }

  lemma InitSound(c: Config)
    ensures Sound(c, INIT)
  {
    assert Held(INIT) == multiset{};
  }

  /** Every state that some interleaving reaches. */
  lemma {:induction false} RunSound(c: Config, steps: seq<Step>)
    ensures Sound(c, Run(c, INIT, steps))
  {
    hide Sound, Next;
    if steps == [] {
      InitSound(c);
    } else {
      RunSound(c, steps[..|steps| - 1]);
      StepKeeps(c, Run(c, INIT, steps[..|steps| - 1]), steps[|steps| - 1]);
    }
  }

  /** The counters exceed the limits by what may not be dropped and by one droppable entry at most. */
  lemma RunBounded(c: Config, steps: seq<Step>)
    ensures var s := Run(c, INIT, steps);
            && s.usedEntries <= Max(0, c.maxBufferEntries) + Weigh(Held(s), KeptOne(c))
            && s.usedBytes <= Max(0, c.maxBufferBytes - 1 + Largest(c, s.accepted)) + Weigh(Held(s), KeptSize(c))
  {
    var s := Run(c, INIT, steps);
    RunSound(c, steps);
    Parts(c, Held(s));
    hide Run, Weigh, Held, Largest;
  }

  function Offered(steps: seq<Step>): seq<Entry> {
    if steps == [] then []
    else
      var last := steps[|steps| - 1];
      Offered(steps[..|steps| - 1]) + if last.Offering? then [last.e] else []
  }

  lemma OfferedOnce(c: Config, s: State, step: Step)
    ensures var t, offered := Next(c, s, step), if step.Offering? then multiset{step.e} else multiset{};
            multiset(t.accepted) + multiset(t.dropped) == multiset(s.accepted) + multiset(s.dropped) + offered
  {
    hide KeyText, KeyLabels, Cut, Bytes, BufferFor;
  }

  /** Entries are offered, not created: each one is accepted or dropped, and none that is a warning
      or worse is dropped. */
  lemma {:induction false} RunSorts(c: Config, steps: seq<Step>)
    ensures multiset(Offered(steps)) == multiset(Run(c, INIT, steps).accepted) + multiset(Run(c, INIT, steps).dropped)
    ensures forall e | e in Run(c, INIT, steps).dropped ::
              SaysDebug(e) || (SaysInfo(e) && c.dropDebugFirst && !c.protectInfo)
  {
    RunSound(c, steps);
    forall e | e in Run(c, INIT, steps).dropped ensures Expendable(c, e) { DroppableExactly(c, e); }
    if steps != [] {
      var before := steps[..|steps| - 1];
      RunSorts(c, before);
      OfferedOnce(c, Run(c, INIT, before), steps[|steps| - 1]);
      hide Next;
    }
  }

  /** At every offer of a run: the entry is dropped exactly if a limit has been reached and the policy gives up
      what its labels say; else it is accepted. */
  lemma RunAdmitsExactly(c: Config, steps: seq<Step>, i: nat)
    requires i < |steps| && steps[i].Offering?
    ensures var s, t, e := Run(c, INIT, steps[..i]), Run(c, INIT, steps[..i + 1]), steps[i].e;
            if (s.usedBytes >= c.maxBufferBytes || s.usedEntries >= c.maxBufferEntries)
               && (SaysDebug(e) || (SaysInfo(e) && c.dropDebugFirst && !c.protectInfo))
            then t.dropped == s.dropped + [e] && t.accepted == s.accepted
            else t.dropped == s.dropped && t.accepted == s.accepted + [e]
  {
    assert steps[..i + 1][..i] == steps[..i];
    DroppableExactly(c, steps[i].e);
    hide Droppable, SaysDebug, SaysInfo, KeyText, KeyLabels, BufferFor;
  }

  lemma DroppedOnOffer(c: Config, s: State, step: Step)
    requires !step.Offering?
    ensures Next(c, s, step).dropped == s.dropped
  {
    hide Bytes, Cut;
  }

  /** What stands among the dropped entries was offered when a limit had been reached. */
  lemma {:induction false} RunDropsUnderPressure(c: Config, steps: seq<Step>, k: nat) returns (i: nat)
    requires k < |Run(c, INIT, steps).dropped|
    ensures i < |steps| && steps[i].Offering? && steps[i].e == Run(c, INIT, steps).dropped[k]
    ensures var s := Run(c, INIT, steps[..i]);
            |s.dropped| == k && (s.usedBytes >= c.maxBufferBytes || s.usedEntries >= c.maxBufferEntries)
  {
    var n := |steps| - 1;
    var s := Run(c, INIT, steps[..n]);
    assert steps[..n + 1] == steps;
    if steps[n].Offering? { RunAdmitsExactly(c, steps, n); } else { DroppedOnOffer(c, s, steps[n]); }
    hide Next, SaysDebug, SaysInfo;
    i := n;
    if k < |s.dropped| {
      i := RunDropsUnderPressure(c, steps[..n], k);
      assert steps[..n][..i] == steps[..i];
    }
  }

  function LineLength(e: Entry): nat { |e.line| }

  function Overhead(e: Entry): nat { 32 }

  /** The byte counter is the length of the held lines and 32 for each. */
  lemma RunBytes(c: Config, steps: seq<Step>)
    ensures var s := Run(c, INIT, steps); s.usedBytes == Weigh(Held(s), LineLength) + 32 * s.usedEntries
  {
    var s := Run(c, INIT, steps);
    RunSound(c, steps);
    WeighSplit(Held(s), Size, LineLength, Overhead);
    WeighOverhead(Held(s));
    hide Run, Weigh, Held, Bounded;
  }

  lemma {:induction false} WeighOverhead(m: multiset<Entry>)
    ensures Weigh(m, Overhead) == 32 * |m|
    decreases |m|
  {
    if m != multiset{} {
      var e :| e in m;
      WeighPick(m, Overhead, e);
      WeighOverhead(m - multiset{e});
    }
  }

  ghost predicate Idle(s: State) {
    && (forall k | k in s.streams :: s.streams[k].entries == [])
    && (forall i | 0 <= i < |s.flights| :: s.flights[i].rest == [])
  }

  lemma {:induction false} BufferedNothing(streams: map<string, Buffer>)
    requires forall k | k in streams :: streams[k].entries == []
    ensures Buffered(streams) == multiset{}
    decreases |streams|
  {
    if streams != map[] {
      assert streams.Keys != {};
      var k :| k in streams;
      BufferedPick(streams, k);
      BufferedNothing(streams - {k});
    }
  }

  lemma {:induction false} InFlightNothing(flights: seq<Flight>)
    requires forall i | 0 <= i < |flights| :: flights[i].rest == []
    ensures InFlight(flights) == multiset{}
  {
    if flights != [] { InFlightNothing(flights[..|flights| - 1]); }
  }

  /** When everything has been flushed, the counters still hold what could not be encoded, and
      nothing else. */
  lemma RunLeaks(c: Config, steps: seq<Step>)
    requires Idle(Run(c, INIT, steps))
    ensures var s := Run(c, INIT, steps);
            && s.usedEntries == |Ended(s.done, EncodeError)|
            && s.usedBytes == Weigh(Ended(s.done, EncodeError), Size)
  {
    var s := Run(c, INIT, steps);
    RunSound(c, steps);
    BufferedNothing(s.streams);
    InFlightNothing(s.flights);
    assert Held(s) == Ended(s.done, EncodeError);
    hide Run, Weigh, Held, Ended;
  }

  // ------------------------------------------------------------ one label set

  ghost predicate SinkLabels(c: Config, labels: Labels) {
    SinkSet(FreeKeys(c.staticLabels), c.staticLabels, labels)
  }

  /** No value in a stream key looks as if the next free key began inside it. */
  ghost predicate Unmistakable(c: Config, labels: Labels) {
    !EndsEarly(FreeKeys(c.staticLabels), c.staticLabels, labels)
  }

  /** What Enqueue must be given so that stream keys do not collide. */
  ghost predicate KeysApart(c: Config, step: Step) {
    step.Offering? ==> !step.e.pushed && Unmistakable(c, KeyLabels(c, step.e))
  }

  ghost predicate AllKeyed(c: Config, labels: Labels, es: seq<Entry>) {
    forall e | e in es :: KeyLabels(c, e) == labels
  }

  ghost predicate BuffersKeyed(c: Config, streams: map<string, Buffer>) {
    forall k | k in streams :: AllKeyed(c, streams[k].labels, streams[k].entries)
  }

  ghost predicate FlightsKeyed(c: Config, flights: seq<Flight>) {
    forall i | 0 <= i < |flights| :: AllKeyed(c, flights[i].labels, flights[i].rest)
  }

  ghost predicate ChunksKeyed(c: Config, done: seq<Chunk>) {
    forall i | 0 <= i < |done| :: AllKeyed(c, done[i].labels, done[i].entries)
  }

  /** Whatever waits or is sent does so under its own labels. */
  ghost predicate Uniform(c: Config, s: State) {
    BuffersKeyed(c, s.streams) && FlightsKeyed(c, s.flights) && ChunksKeyed(c, s.done)
  }

  ghost predicate OwnStream(c: Config, key: string, b: Buffer) {
    && SinkLabels(c, b.labels) && Unmistakable(c, b.labels)
    && KeyText(b.labels) == key && AllKeyed(c, b.labels, b.entries)
  }

  ghost predicate Owned(c: Config, streams: map<string, Buffer>) {
    forall k | k in streams :: OwnStream(c, k, streams[k])
  }

  /** Every stream key stands for one label set. */
  ghost predicate Owning(c: Config, s: State) {
    Owned(c, s.streams) && FlightsKeyed(c, s.flights) && ChunksKeyed(c, s.done)
  }

  /** An entry is keyed on five of its labels; one that Enqueue takes also on the configured ones, which win. */
  lemma KeyLabelsExactly(c: Config, e: Entry, k: string)
    ensures k in KeyLabels(c, e) <==>
            || (k in {"service", "env", "severity", "namespace", "pod"} && k in e.labels)
            || (!e.pushed && k in c.staticLabels)
    ensures k in KeyLabels(c, e) ==>
              KeyLabels(c, e)[k] == if !e.pushed && k in c.staticLabels then c.staticLabels[k] else e.labels[k]
  {
  }

  lemma SinkLabelsOf(c: Config, e: Entry)
    requires !e.pushed
    ensures SinkLabels(c, KeyLabels(c, e))
  {
    StreamLabelsAreSinkSets(c.staticLabels, e.labels);
    hide StreamLabels, SinkSet;
  }

  /** Two sets with one stream key are one, if neither can be mistaken. */
  lemma OneLabelSet(c: Config, a: Labels, b: Labels)
    requires Plain(c.staticLabels.Keys) && SinkLabels(c, a) && SinkLabels(c, b)
    requires Unmistakable(c, a) && Unmistakable(c, b) && KeyText(a) == KeyText(b)
    ensures a == b
  {
    FreeKeysApart(c.staticLabels);
    hide SinkSet, EndsEarly, KeyText, LokiConfigured.Apart, FreeKeys, Plain;
    if a != b { OneEndsEarly(FreeKeys(c.staticLabels), c.staticLabels, a, b); }
  }

  lemma OwnedUpdate(c: Config, streams: map<string, Buffer>, key: string, b: Buffer)
    requires Owned(c, streams) && OwnStream(c, key, b)
    ensures Owned(c, streams[key := b])
  {
    hide OwnStream;
  }

  lemma OwnMore(c: Config, key: string, b: Buffer, e: Entry)
    requires OwnStream(c, key, b) && KeyLabels(c, e) == b.labels
    ensures OwnStream(c, key, Appended(b, e))
  {
    hide KeyLabels, KeyText, SinkLabels, Unmistakable;
  }

  lemma OfferOwning(c: Config, s: State, e: Entry, now: int)
    requires Plain(c.staticLabels.Keys) && Owning(c, s) && KeysApart(c, Offering(e, now))
    ensures Owning(c, Offer(c, s, e, now))
  {
    hide KeyLabels, SinkLabels, Unmistakable, Plain, Droppable, KeyText, AllKeyed, FlightsKeyed, ChunksKeyed, Size;
    var labels := KeyLabels(c, e);
    var key, b := KeyText(labels), BufferFor(c, s, e, now);
    SinkLabelsOf(c, e);
    if key in s.streams {
      assert OwnStream(c, key, b);
      OneLabelSet(c, b.labels, labels);
    } else {
      assert b == Buffer(labels, [], 0, now);
      NoneKeyed(c, labels);
    }
    OwnMore(c, key, b, e);
    OwnedUpdate(c, s.streams, key, Appended(b, e));
    hide OwnStream, Owned;
  }

  lemma NoneKeyed(c: Config, labels: Labels)
    ensures AllKeyed(c, labels, [])
  {
  }

  lemma SettleOwning(c: Config, s: State, i: nat, outcome: Outcome)
    requires Owning(c, s) && Underway(s, i)
    ensures Owning(c, Settle(c, s, i, outcome))
  {
    var f := s.flights[i];
    var n := ChunkSize(c, f.rest);
    assert AllKeyed(c, f.labels, f.rest[..n]) && AllKeyed(c, f.labels, f.rest[n..]);
    hide AllKeyed, OwnStream, Owned, Cut, Bytes;
  }

  lemma FlightsMore(c: Config, flights: seq<Flight>, f: Flight)
    requires FlightsKeyed(c, flights) && AllKeyed(c, f.labels, f.rest)
    ensures FlightsKeyed(c, flights + [f])
  {
    hide AllKeyed;
  }

  lemma PopOwning(c: Config, s: State, key: string, now: int)
    requires Owning(c, s) && Poppable(s, key)
    ensures Owning(c, Pop(s, key, now))
  {
    var b := s.streams[key];
    NoneKeyed(c, b.labels);
    hide AllKeyed, SinkLabels, Unmistakable, KeyText;
    assert OwnStream(c, key, b) && OwnStream(c, key, Emptied(b, now));
    hide OwnStream;
    OwnedUpdate(c, s.streams, key, Emptied(b, now));
    hide Owned;
    FlightsMore(c, s.flights, Flight(b.labels, b.entries));
    hide FlightsKeyed, ChunksKeyed;
  }

  lemma {:induction false} RunOwning(c: Config, steps: seq<Step>)
    requires Plain(c.staticLabels.Keys) && forall i | 0 <= i < |steps| :: KeysApart(c, steps[i])
    ensures Owning(c, Run(c, INIT, steps))
  {
    hide KeysApart, Owning, Plain;
    if steps == [] {
      NothingOwned(c);
    } else {
      var s, step := Run(c, INIT, steps[..|steps| - 1]), steps[|steps| - 1];
      RunOwning(c, steps[..|steps| - 1]);
      assert KeysApart(c, step);
      hide Run;
      match step
      case Offering(e, now) => OfferOwning(c, s, e, now);
      case Popping(key, now) => if Poppable(s, key) { PopOwning(c, s, key, now); }
      case Settling(i, outcome) => if Underway(s, i) { SettleOwning(c, s, i, outcome); }
    }
  }

  lemma NothingOwned(c: Config)
    ensures Owning(c, INIT)
  {
  }

  /** Without push requests, and with values that cannot be mistaken, every chunk goes out under the labels of
      each of its entries. */
  lemma RunUniform(c: Config, steps: seq<Step>)
    requires Plain(c.staticLabels.Keys) && forall i | 0 <= i < |steps| :: KeysApart(c, steps[i])
    ensures Uniform(c, Run(c, INIT, steps))
  {
    RunOwning(c, steps);
    var s := Run(c, INIT, steps);
    hide KeysApart, Run, SinkLabels, Unmistakable, KeyText, AllKeyed;
    forall k | k in s.streams ensures AllKeyed(c, s.streams[k].labels, s.streams[k].entries) {
      assert OwnStream(c, k, s.streams[k]);
    }
  }

  lemma AcceptFirst(c: Config, e: Entry, now: int)
    requires !e.pushed
    ensures var s, key := Accept(c, INIT, e, now), KeyText(KeyLabels(c, e));
            && key in s.streams && s.streams[key].labels == KeyLabels(c, e)
            && s.usedBytes == Size(e) && s.usedEntries == 1
  {
    hide KeyText, KeyLabels;
  }

  lemma AcceptMixes(c: Config, s: State, e: Entry, now: int)
    requires var key := KeyText(KeyLabels(c, e)); key in s.streams && s.streams[key].labels != KeyLabels(c, e)
    ensures !Uniform(c, Accept(c, s, e, now))
  {
    var key := KeyText(KeyLabels(c, e));
    var t := Accept(c, s, e, now);
    assert e in t.streams[key].entries && t.streams[key].labels == s.streams[key].labels;
    hide KeyText, KeyLabels;
    assert !AllKeyed(c, t.streams[key].labels, t.streams[key].entries);
  }

  lemma RunOffers(c: Config, e: Entry, d: Entry, now: int)
    ensures Run(c, INIT, [Offering(e, now), Offering(d, now)]) == Offer(c, Offer(c, INIT, e, now), d, now)
  {
    var one, two := [Offering(e, now)], [Offering(e, now), Offering(d, now)];
    assert one[..0] == [] && two[..1] == one;
    assert Run(c, INIT, []) == INIT;
    assert Run(c, INIT, one) == Next(c, INIT, one[0]);
    hide Offer;
  }

  /** And if an entry has a value that can be mistaken, there is another one that ends up in its buffer under the
      wrong labels, whenever there is room for the two. */
  lemma MistakenMixes(c: Config, e: Entry, now: int) returns (d: Entry)
    requires Plain(c.staticLabels.Keys) && !e.pushed && !Unmistakable(c, KeyLabels(c, e))
    requires !UnderPressure(c, 0, 0) && !UnderPressure(c, Size(e), 1)
    ensures !d.pushed && KeyLabels(c, d) != KeyLabels(c, e)
    ensures !Uniform(c, Run(c, INIT, [Offering(e, now), Offering(d, now)]))
  {
    FreeKeysApart(c.staticLabels);
    SinkLabelsOf(c, e);
    var a := KeyLabels(c, e);
    hide SinkSet, EndsEarly, KeyText, LokiConfigured.Apart, FreeKeys, Plain;
    var b := EarlyEndCollides(FreeKeys(c.staticLabels), c.staticLabels, a);
    d := Entry(e.timestamp, b, e.line, false);
    StreamLabelsAreSinkSets(c.staticLabels, b);
    assert KeyLabels(c, d) == b;
    hide KeyLabels, StreamLabels;
    AcceptFirst(c, e, now);
    assert Offer(c, INIT, e, now) == Accept(c, INIT, e, now);
    AcceptMixes(c, Accept(c, INIT, e, now), d, now);
    RunOffers(c, e, d, now);
    hide Run, Uniform, Accept, Size;
    assert Offer(c, Accept(c, INIT, e, now), d, now) == Accept(c, Accept(c, INIT, e, now), d, now);
  }
}
