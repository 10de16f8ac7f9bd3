/** The Loki sink as the program has it: a map of buffer objects and two counters, changed in place
    (gateway/pkg/sink/loki/loki.go:179-246, 277-366, 430-605).  Each method is the step, or the run
    of steps, that LokiProtocol and LokiChunks give for it. */
module LokiSinks {
  import opened GoStrings
  import opened LokiLabels
  import opened LokiProtocol
  import opened LokiChunks

  /** One stream of a push request, its labels still printed. */
  datatype PushStream = PushStream(labels: string, entries: seq<(int, seq<Byte>)>)

  // ------------------------------------------------------ steps of the callers

  function Offers(es: seq<Entry>, now: nat -> int): seq<Step> {
    if es == [] then [] else Offers(es[..|es| - 1], now) + [Offering(es[|es| - 1], now(|es| - 1))]
  }

  function PushedEntries(labels: Labels, lines: seq<(int, seq<Byte>)>): (es: seq<Entry>)
    ensures |es| == |lines| && forall i | 0 <= i < |es| :: es[i] == Entry(lines[i].0, labels, lines[i].1, true)
  {
    seq(|lines|, i requires 0 <= i < |lines| => Entry(lines[i].0, labels, lines[i].1, true))
  }

  function PushOffers(streams: seq<PushStream>, now: nat -> nat -> int): seq<Step> {
    if streams == [] then []
    else
      var n := |streams| - 1;
      PushOffers(streams[..n], now) + Offers(PushedEntries(ParseLabels(streams[n].labels), streams[n].entries), now(n))
  }

  function Placed(streams: map<string, Buffer>, key: string, labels: Labels, e: Entry, now: int): map<string, Buffer> {
    streams[key := Appended(if key in streams then streams[key] else Buffer(labels, [], 0, now), e)]
  }

  /** Taking in an entry, for callers that have computed its key and the labels of a new buffer. */
  function Stored(s: State, key: string, labels: Labels, e: Entry, now: int): State {
    s.(streams := Placed(s.streams, key, labels, e, now),
       usedBytes := s.usedBytes + Size(e), usedEntries := s.usedEntries + 1, accepted := s.accepted + [e])
  }

  lemma AcceptStores(c: Config, s: State, e: Entry, now: int)
    ensures Accept(c, s, e, now)
         == Stored(s, KeyText(KeyLabels(c, e)), if e.pushed then e.labels else KeyLabels(c, e), e, now)
  {
    hide KeyText, KeyLabels;
  }

  function Payload(es: seq<Entry>): seq<(int, seq<Byte>)> {
    if es == [] then [] else Payload(es[..|es| - 1]) + [(es[|es| - 1].timestamp, es[|es| - 1].line)]
  }

  lemma {:induction false} RunMore(c: Config, s: State, a: seq<Step>, b: seq<Step>)
    ensures Run(c, s, a + b) == Run(c, Run(c, s, a), b)
  {
    if b == [] {
      assert a + b == a;
    } else {
      assert (a + b)[..|a + b| - 1] == a + b[..|b| - 1];
      RunMore(c, s, a, b[..|b| - 1]);
    }
  }

  lemma {:induction false} RunKeeps(c: Config, s: State, steps: seq<Step>)
    requires Sound(c, s)
    ensures Sound(c, Run(c, s, steps))
  {
    hide Sound, Next;
    if steps != [] {
      RunKeeps(c, s, steps[..|steps| - 1]);
      StepKeeps(c, Run(c, s, steps[..|steps| - 1]), steps[|steps| - 1]);
    }
  }

  lemma OfferNext(c: Config, s: State, es: seq<Entry>, now: nat -> int, n: nat)
    requires n < |es|
    ensures Run(c, s, Offers(es[..n + 1], now)) == Offer(c, Run(c, s, Offers(es[..n], now)), es[n], now(n))
  {
    hide Offer;
    assert es[..n + 1][..n] == es[..n];
    var steps := Offers(es[..n + 1], now);
    assert steps[..|steps| - 1] == Offers(es[..n], now);
  }

  lemma UpdateTwice(streams: map<string, Buffer>, key: string, b: Buffer, d: Buffer)
    ensures streams[key := b][key := d] == streams[key := d]
  {
  }

  // --------------------------------------------------------------- the buffer

  class StreamBuffer {
    const labels: Labels
    var entries: seq<Entry>
    var bytes: int
    var lastPush: int

    constructor (labels: Labels, lastPush: int)
      ensures Value() == Buffer(labels, [], 0, lastPush)
    {
      this.labels := labels;
      this.entries := [];
      this.bytes := 0;
      this.lastPush := lastPush;
    }

    ghost function Value(): Buffer
      reads this
    {
      Buffer(labels, entries, bytes, lastPush)
    }

    method Add(e: Entry)
      modifies this`entries, this`bytes
      ensures Value() == Appended(old(Value()), e)
    {
      entries := entries + [e];
      bytes := bytes + |e.line| + 32;
    }
  }

  // ----------------------------------------------------------------- the sink

  /** Field by field, what the end of a chunk leaves. */
  lemma SettleParts(c: Config, s: State, i: nat, outcome: Outcome)
    requires Underway(s, i)
    ensures var f, n := s.flights[i], ChunkSize(c, s.flights[i].rest);
            Settle(c, s, i, outcome)
            == State(s.streams, if outcome.EncodeError? then s.usedBytes else s.usedBytes - Bytes(f.rest[..n]),
                     if outcome.EncodeError? then s.usedEntries else s.usedEntries - n,
                     s.flights[i := f.(rest := f.rest[n..])], s.done + [Chunk(f.labels, f.rest[..n], outcome)],
                     s.accepted, s.dropped)
  {
    hide Cut, Bytes;
  }

  class LokiSink {
    const config: Config
    var streams: map<string, StreamBuffer>
    var usedBytes: int
    var usedEntries: int

    ghost var flights: seq<Flight>
    ghost var done: seq<Chunk>
    ghost var accepted: seq<Entry>
    ghost var dropped: seq<Entry>

    /** No two streams share a buffer. */
    ghost predicate Apart()
      reads this`streams
    {
      forall k, l | k in streams && l in streams && k != l :: streams[k] != streams[l]
    }

    ghost function Buffers(): map<string, Buffer>
      reads this`streams, streams.Values
    {
      map k | k in streams :: streams[k].Value()
    }

    ghost function Model(): State
      reads this, streams.Values
    {
      State(Buffers(), usedBytes, usedEntries, flights, done, accepted, dropped)
    }

    ghost predicate Valid()
      reads this, streams.Values
    {
      Apart() && Sound(config, Model())
    }

    constructor (config: Config)
      ensures Valid() && Model() == INIT && this.config == config
      ensures fresh(streams.Values)
    {
      this.config := config;
      streams := map[];
      usedBytes := 0;
      usedEntries := 0;
      flights, done, accepted, dropped := [], [], [], [];
      new;
      InitSound(config);
      assert Model() == INIT;
    }

    method ShouldDropUnderPressure(sev: string) returns (drop: bool)
      ensures drop <==> ShouldDrop(config, sev)
    {
      if config.dropDebugFirst {
        if sev == "debug" {
          return true;
        } else if sev == "info" {
          return !config.protectInfo;
        } else {
          return false;
        }
      }
      return sev == "debug";
    }

    /** The buffer of a stream, made if there is none. */
    method BufferOf(key: string, labels: Labels, now: int) returns (buf: StreamBuffer)
      requires Apart()
      modifies this`streams
      ensures Apart() && key in streams && streams[key] == buf
      ensures fresh(buf) || buf in old(streams.Values)
      ensures streams.Values <= old(streams.Values) + {buf}
      ensures var before := old(Buffers());
              Buffers() == before[key := if key in before then before[key] else Buffer(labels, [], 0, now)]
    {
      if key !in streams {
        buf := new StreamBuffer(labels, now);
        streams := streams[key := buf];
      } else {
        buf := streams[key];
      }
    }

    method Put(buf: StreamBuffer, ghost key: string, e: Entry)
      requires Apart() && key in streams && streams[key] == buf
      modifies buf
      ensures Buffers() == old(Buffers())[key := Appended(old(Buffers())[key], e)]
    {
      hide Appended;
      buf.Add(e);
    }

    method Place(key: string, labels: Labels, e: Entry, now: int)
      requires Apart()
      modifies this`streams, streams.Values
      ensures Apart() && fresh(streams.Values - old(streams.Values))
      ensures Buffers() == Placed(old(Buffers()), key, labels, e, now)
    {
      hide Appended, Apart;
      var buf := BufferOf(key, labels, now);
      ghost var b := Buffers()[key];
      Put(buf, key, e);
      UpdateTwice(old(Buffers()), key, b, Appended(b, e));
      assert fresh(streams.Values - old(streams.Values));
    }

    /** Puts one entry into its buffer and counts it. */
    method Append(key: string, labels: Labels, e: Entry, now: int)
      requires Apart()
      modifies this, streams.Values
      ensures Apart() && fresh(streams.Values - old(streams.Values))
      ensures Model() == Stored(old(Model()), key, labels, e, now)
    {
      hide Placed, Apart;
      Place(key, labels, e, now);
      usedEntries := usedEntries + 1;
      usedBytes := usedBytes + |e.line| + 32;
      accepted := accepted + [e];
    }

    /** One entry of Enqueue. */
    method OfferEntry(e: Entry, now: int)
      requires Apart() && !e.pushed
      modifies this, streams.Values
      ensures Apart() && fresh(streams.Values - old(streams.Values))
      ensures Model() == Offer(config, old(Model()), e, now)
    {
      hide KeyText, StreamLabels, Accept, Stored, Apart, ToLower;
      if usedBytes >= config.maxBufferBytes || usedEntries >= config.maxBufferEntries {
        var sev := ToLower(if "severity" in e.labels then e.labels["severity"] else "");
        var drop := ShouldDropUnderPressure(sev);
        if drop {
          dropped := dropped + [e];
          return;
        }
      }
      var key, lbls := StreamKey(e.labels, config.staticLabels);
      AcceptStores(config, Model(), e, now);
      Append(key, lbls, e, now);
    }

    method Enqueue(entries: seq<Entry>, now: nat -> int)
      requires Valid()
      requires forall e | e in entries :: !e.pushed
      modifies this, streams.Values
      ensures Valid() && fresh(streams.Values - old(streams.Values))
      ensures Model() == Run(config, old(Model()), Offers(entries, now))
    {
      hide Sound, Run, Offers, Offer, Apart;
      ghost var before := Model();
      assert entries[..0] == [];
      NoOffers(config, before, now);
      var n := 0;
      while n < |entries|
        invariant 0 <= n <= |entries|
        invariant Apart() && fresh(streams.Values - old(streams.Values))
        invariant Model() == Run(config, before, Offers(entries[..n], now))
      {
        OfferNext(config, before, entries, now, n);
        OfferEntry(entries[n], now(n));
        n := n + 1;
      }
      assert entries[..n] == entries;
      RunKeeps(config, before, Offers(entries, now));
    }

    /** One entry whose severity and key are known. */
    method OfferKeyed(e: Entry, sev: string, key: string, now: int)
      requires Apart() && e.pushed
      requires sev == Severity(e) && key == KeyText(KeyLabels(config, e))
      modifies this, streams.Values
      ensures Apart() && fresh(streams.Values - old(streams.Values))
      ensures Model() == Offer(config, old(Model()), e, now)
    {
      hide KeyText, KeyLabels, Severity, Accept, Stored, ShouldDrop;
      if usedBytes >= config.maxBufferBytes || usedEntries >= config.maxBufferEntries {
        var drop := ShouldDropUnderPressure(sev);
        if drop {
          dropped := dropped + [e];
          return;
        }
      }
      AcceptStores(config, Model(), e, now);
      Append(key, e.labels, e, now);
    }

    /** The entries of one stream of a push request. */
    method EnqueueStream(stream: PushStream, now: nat -> int)
      requires Apart()
      modifies this, streams.Values
      ensures Apart() && fresh(streams.Values - old(streams.Values))
      ensures Model()
           == Run(config, old(Model()), Offers(PushedEntries(ParseLabels(stream.labels), stream.entries), now))
    {
      hide KeyText, Run, Offers, StreamLabels, ParseLabels, Offer, Apart;
      var labels := ParseLokiLabelsString(stream.labels);
      var sev := ToLower(if "severity" in labels then labels["severity"] else "");
      if sev == "" {
        sev := "info";
      }
      var key, keyLabels := StreamKey(labels, map[]);
      ghost var before, es := Model(), PushedEntries(labels, stream.entries);
      assert es[..0] == [];
      NoOffers(config, before, now);
      var n := 0;
      while n < |stream.entries|
        invariant 0 <= n <= |stream.entries|
        invariant Apart() && fresh(streams.Values - old(streams.Values))
        invariant Model() == Run(config, before, Offers(es[..n], now))
      {
        OfferNext(config, before, es, now, n);
        OfferKeyed(Entry(stream.entries[n].0, labels, stream.entries[n].1, true), sev, key, now(n));
        n := n + 1;
      }
      assert es[..n] == es;
    }

    method EnqueuePushRequest(req: seq<PushStream>, now: nat -> nat -> int)
      requires Valid()
      modifies this, streams.Values
      ensures Valid() && fresh(streams.Values - old(streams.Values))
      ensures Model() == Run(config, old(Model()), PushOffers(req, now))
    {
      hide Sound, Run, Offers;
      ghost var before := Model();
      NoPushOffers(config, before, now);
      var n := 0;
      while n < |req|
        invariant 0 <= n <= |req|
        invariant Apart() && fresh(streams.Values - old(streams.Values))
        invariant Model() == Run(config, before, PushOffers(req[..n], now))
      {
        ghost var es := PushedEntries(ParseLabels(req[n].labels), req[n].entries);
        assert req[..n + 1][..n] == req[..n];
        RunMore(config, before, PushOffers(req[..n], now), Offers(es, now(n)));
        EnqueueStream(req[n], now(n));
        n := n + 1;
      }
      assert req[..n] == req;
      RunKeeps(config, before, PushOffers(req, now));
    }

    // -------------------------------------------------------------- flushing

    /** Takes the entries of a stream over. */
    method Take(key: string, now: int) returns (entries: seq<Entry>)
      requires Apart() && key in streams && streams[key].entries != []
      modifies this`flights, streams[key]
      ensures entries == old(streams[key].entries)
      ensures Model() == Pop(old(Model()), key, now)
    {
      var buf := streams[key];
      entries := buf.entries;
      buf.entries := [];
      buf.bytes := 0;
      buf.lastPush := now;
      flights := flights + [Flight(buf.labels, entries)];
      assert streams[key].Value() == Emptied(old(streams[key].Value()), now);
      assert Buffers() == old(Buffers())[key := Emptied(old(Buffers()[key]), now)];
    }

    /** Where the chunk from startIdx ends, and its lines. */
    method CutChunk(entries: seq<Entry>, startIdx: nat) returns (end: nat, values: seq<(int, seq<Byte>)>)
      requires startIdx < |entries| && config.maxBatchEntries >= 1
      ensures end == startIdx + ChunkSize(config, entries[startIdx..])
      ensures values == Payload(entries[startIdx..end])
    {
      hide Cut, Bytes, Payload;
      end := startIdx + config.maxBatchEntries;
      if end > |entries| {
        end := |entries|;
      }
      values := [];
      assert entries[startIdx..startIdx] == [];
      Nothing();
      var approxBytes := 0;
      var i := startIdx;
      while i < end
        invariant startIdx <= i <= end
        invariant approxBytes == Bytes(entries[startIdx..i]) && values == Payload(entries[startIdx..i])
        invariant i > startIdx ==> approxBytes < config.maxBatchBytes
        invariant i > startIdx + 1 ==> Bytes(entries[startIdx..i - 1]) < config.maxBatchBytes
      {
        OneMore(entries, startIdx, i);
        values := values + [(entries[i].timestamp, entries[i].line)];
        approxBytes := approxBytes + |entries[i].line| + 32;
        i := i + 1;
        if approxBytes >= config.maxBatchBytes {
          end := i;
          break;
        }
      }
      CutFound(config, entries, startIdx, end);
    }

    method Release(entries: seq<Entry>, startIdx: nat, end: nat)
      requires startIdx <= end <= |entries|
      modifies this`usedEntries, this`usedBytes
      ensures usedEntries == old(usedEntries) - (end - startIdx)
      ensures usedBytes == old(usedBytes) - Bytes(entries[startIdx..end])
    {
      var i := startIdx;
      while i < end
        invariant startIdx <= i <= end
        invariant usedEntries == old(usedEntries) - (i - startIdx)
        invariant usedBytes == old(usedBytes) - Bytes(entries[startIdx..i])
      {
        assert entries[startIdx..i + 1][..i - startIdx] == entries[startIdx..i];
        usedEntries := usedEntries - 1;
        usedBytes := usedBytes - (|entries[i].line| + 32);
        i := i + 1;
      }
    }

    /** The end of one chunk; an encoding error returns nothing to the counters. */
    method EndChunk(entries: seq<Entry>, startIdx: nat, end: nat, outcome: Outcome, ghost f: nat)
      requires startIdx < |entries| && f < |flights| && flights[f].rest == entries[startIdx..]
      requires end == startIdx + ChunkSize(config, entries[startIdx..])
      modifies this`usedEntries, this`usedBytes, this`flights, this`done
      ensures Model() == Settle(config, old(Model()), f, outcome)
      ensures |flights| == |old(flights)| && flights[f].rest == entries[end..]
    {
      hide Cut, Bytes, Settle;
      ghost var flight, was := flights[f], Model();
      SettleParts(config, was, f, outcome);
      if outcome != EncodeError {
        Release(entries, startIdx, end);
      }
      flights := flights[f := flight.(rest := entries[end..])];
      done := done + [Chunk(flight.labels, entries[startIdx..end], outcome)];
      assert entries[startIdx..][..end - startIdx] == entries[startIdx..end];
      assert entries[startIdx..][end - startIdx..] == entries[end..];
      assert Buffers() == was.streams;
    }

    /** Sends a batch chunk by chunk. */
    method Send(entries: seq<Entry>, outcome: nat -> Outcome, ghost f: nat)
      requires config.maxBatchEntries >= 1 && f < |flights| && flights[f].rest == entries
      modifies this`usedEntries, this`usedBytes, this`flights, this`done
      ensures Model() == Drained(config, old(Model()), f, 0, outcome)
    {
      hide Settle, Cut, Drained, ChunkSize, Buffers;
      var startIdx, n: nat := 0, 0;
      while startIdx < |entries|
        invariant 0 <= startIdx <= |entries|
        invariant f < |flights| && flights[f].rest == entries[startIdx..]
        invariant Drained(config, Model(), f, n, outcome) == Drained(config, old(Model()), f, 0, outcome)
        decreases |entries| - startIdx
      {
        var end, values := CutChunk(entries, startIdx);
        DrainedStep(config, Model(), f, n, outcome);
        EndChunk(entries, startIdx, end, outcome(n), f);
        startIdx, n := end, n + 1;
      }
      DrainedAtEnd(config, Model(), f, n, outcome);
    }

    method FlushStream(key: string, now: int, outcome: nat -> Outcome)
      requires Valid() && config.maxBatchEntries >= 1
      modifies this, streams.Values
      ensures Valid() && streams == old(streams)
      ensures Model() == Flushed(config, old(Model()), key, now, outcome)
    {
      hide Sound, Pop, Drained, Flushed, Apart;
      FlushedSound(config, Model(), key, now, outcome);
      FlushedCases(config, Model(), key, now, outcome);
      if key !in streams || |streams[key].entries| == 0 {
        return;
      }
      var entries := Take(key, now);
      Send(entries, outcome, |old(flights)|);
    }

    /** Keys of the streams to flush now. */
    method CollectDue(now: int) returns (keys: seq<string>)
      ensures Distinct(keys)
      ensures forall k :: k in keys <==> k in streams && Due(config, streams[k].Value(), now)
    {
      keys := [];
      var left := streams.Keys;
      while left != {}
        invariant left <= streams.Keys && Distinct(keys)
        invariant forall k :: k in keys <==> k in streams && k !in left && Due(config, streams[k].Value(), now)
        decreases left
      {
        var k :| k in left;
        var buf := streams[k];
        if |buf.entries| != 0 {
          if buf.bytes >= config.maxBatchBytes || |buf.entries| >= config.maxBatchEntries
             || now - buf.lastPush >= config.flushInterval {
            keys := keys + [k];
          }
        }
        left := left - {k};
      }
    }

    method FlushKeys(keys: seq<string>, popAt: string -> int, outcome: string -> nat -> Outcome)
      requires Valid() && config.maxBatchEntries >= 1
      modifies this, streams.Values
      ensures Valid() && streams == old(streams)
      ensures Model() == FlushedAll(config, old(Model()), keys, popAt, outcome)
    {
      hide Sound, Flushed;
      var n := 0;
      while n < |keys|
        invariant 0 <= n <= |keys| && Valid() && streams == old(streams)
        invariant Model() == FlushedAll(config, old(Model()), keys[..n], popAt, outcome)
      {
        assert keys[..n + 1][..n] == keys[..n];
        FlushStream(keys[n], popAt(keys[n]), outcome(keys[n]));
        n := n + 1;
      }
      assert keys[..n] == keys;
    }

    /** Empties exactly the due streams. */
    method FlushDue(now: int, popAt: string -> int, outcome: string -> nat -> Outcome) returns (keys: seq<string>)
      requires Valid() && config.maxBatchEntries >= 1
      modifies this, streams.Values
      ensures Valid()
      ensures Distinct(keys)
      ensures forall k :: k in keys <==> k in old(streams) && Due(config, old(streams[k].Value()), now)
      ensures Model() == FlushedAll(config, old(Model()), keys, popAt, outcome)
      ensures var before := old(Buffers());
              Buffers() == map k | k in before ::
                             if Due(config, before[k], now) then Emptied(before[k], popAt(k)) else before[k]
      ensures forall k | k in Buffers() && Buffers()[k].entries != [] ::
                && Buffers()[k].bytes < config.maxBatchBytes && |Buffers()[k].entries| < config.maxBatchEntries
                && now - Buffers()[k].lastPush < config.flushInterval
    {
      hide Sound, FlushedAll;
      keys := CollectDue(now);
      FlushedAllStreams(config, Model(), keys, popAt, outcome);
      FlushKeys(keys, popAt, outcome);
    }

    method CollectFilled() returns (keys: seq<string>)
      ensures Distinct(keys)
      ensures forall k :: k in keys <==> Poppable(Model(), k)
    {
      keys := [];
      var left := streams.Keys;
      while left != {}
        invariant left <= streams.Keys && Distinct(keys)
        invariant forall k :: k in keys <==> k in streams && k !in left && streams[k].entries != []
        decreases left
      {
        var k :| k in left;
        if |streams[k].entries| > 0 {
          keys := keys + [k];
        }
        left := left - {k};
      }
    }

    /** At shutdown, as many streams as the deadline leaves time for; with time for all, no buffer
        keeps an entry. */
    method FlushAll(deadline: nat, popAt: string -> int, outcome: string -> nat -> Outcome) returns (keys: seq<string>)
      requires Valid() && config.maxBatchEntries >= 1
      modifies this, streams.Values
      ensures Valid() && Distinct(keys)
      ensures forall k :: k in keys ==> Poppable(old(Model()), k)
      ensures Model() == FlushedAll(config, old(Model()), keys, popAt, outcome)
      ensures |keys| <= deadline
      ensures |keys| < deadline ==> forall k | k in streams :: streams[k].entries == []
    {
      hide Sound, FlushedAll;
      keys := CollectFilled();
      ghost var all := keys;
      if |keys| > deadline {
        keys := keys[..deadline];
      }
      FlushedAllStreams(config, Model(), keys, popAt, outcome);
      FlushKeys(keys, popAt, outcome);
      if |keys| < deadline {
        forall k | k in streams ensures streams[k].entries == [] {
          assert k in old(Buffers()) && Buffers()[k].entries == [];
        }
      }
    }
  }

  lemma NoPushOffers(c: Config, s: State, now: nat -> nat -> int)
    ensures Run(c, s, PushOffers([], now)) == s
  {
  }

  lemma OneMore(es: seq<Entry>, from: nat, i: nat)
    requires from <= i < |es|
    ensures Bytes(es[from..i + 1]) == Bytes(es[from..i]) + Size(es[i])
    ensures Payload(es[from..i + 1]) == Payload(es[from..i]) + [(es[i].timestamp, es[i].line)]
  {
    assert es[from..i + 1][..i - from] == es[from..i];
  }

  lemma Nothing()
    ensures Bytes([]) == 0 && Payload([]) == []
  {
  }

  lemma CutFound(c: Config, entries: seq<Entry>, from: nat, end: nat)
    requires from < end <= |entries| && 1 <= end - from <= c.maxBatchEntries
    requires end - from > 1 ==> Bytes(entries[from..end - 1]) < c.maxBatchBytes
    requires end == |entries| || end - from == c.maxBatchEntries || Bytes(entries[from..end]) >= c.maxBatchBytes
    ensures end == from + ChunkSize(c, entries[from..])
  {
    hide Cut, Bytes;
    var es, n := entries[from..], end - from;
    assert es[..n] == entries[from..end] && es[..n - 1] == entries[from..end - 1];
    CutStops(es, c.maxBatchEntries, c.maxBatchBytes);
    StopsOnce(es, c.maxBatchEntries, c.maxBatchBytes, n, ChunkSize(c, es));
  }

  lemma DrainedStep(c: Config, s: State, i: nat, n: nat, outcome: nat -> Outcome)
    requires c.maxBatchEntries >= 1 && Underway(s, i)
    ensures ChunkSize(c, s.flights[i].rest) > 0
    ensures |Settle(c, s, i, outcome(n)).flights| == |s.flights|
    ensures Drained(c, s, i, n, outcome) == Drained(c, Settle(c, s, i, outcome(n)), i, n + 1, outcome)
  {
    CutSteps(c, s.flights[i].rest);
  }

  lemma FlushedCases(c: Config, s: State, key: string, now: int, outcome: nat -> Outcome)
    requires c.maxBatchEntries >= 1
    ensures Flushed(c, s, key, now, outcome)
         == if Poppable(s, key) then Drained(c, Pop(s, key, now), |s.flights|, 0, outcome) else s
    ensures Poppable(s, key) ==>
              Pop(s, key, now).flights == s.flights + [Flight(s.streams[key].labels, s.streams[key].entries)]
  {
  }

  /** What ends a drain. */
  lemma DrainedAtEnd(c: Config, s: State, i: nat, n: nat, outcome: nat -> Outcome)
    requires c.maxBatchEntries >= 1 && i < |s.flights| && s.flights[i].rest == []
    ensures Drained(c, s, i, n, outcome) == s
  {
  }

  lemma NoOffers(c: Config, s: State, now: nat -> int)
    ensures Run(c, s, Offers([], now)) == s
  {
  }
}
