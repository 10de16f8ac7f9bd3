/** How a popped batch is cut into chunks (gateway/pkg/sink/loki/loki.go:503-604). */
module LokiChunks {
  import opened LokiLabels
  import opened LokiProtocol

  // ----------------------------------------------------------- greedy chunks

  function Chunks(c: Config, es: seq<Entry>): seq<seq<Entry>>
    requires c.maxBatchEntries >= 1
    decreases |es|
  {
    if es == [] then []
    else
      CutSteps(c, es);
      var n := ChunkSize(c, es);
      [es[..n]] + Chunks(c, es[n..])
  }

  /** The loop moves on exactly when the entry cap is positive. */
  lemma CutSteps(c: Config, es: seq<Entry>)
    requires es != []
    ensures ChunkSize(c, es) > 0 <==> c.maxBatchEntries >= 1
  {
  }

  // ---------------------------------------------------------- what is promised

  function Concat(chunks: seq<seq<Entry>>): seq<Entry> {
    if chunks == [] then [] else chunks[0] + Concat(chunks[1..])
  }

  /** Within the entry cap, and within the byte cap but for its last entry. */
  predicate Fits(c: Config, chunk: seq<Entry>) {
    1 <= |chunk| <= c.maxBatchEntries && (|chunk| == 1 || Bytes(chunk[..|chunk| - 1]) < c.maxBatchBytes)
  }

  predicate Full(c: Config, chunk: seq<Entry>) {
    |chunk| == c.maxBatchEntries || Bytes(chunk) >= c.maxBatchBytes
  }

  /** Only the last chunk may end before it is full. */
  predicate Packed(c: Config, chunks: seq<seq<Entry>>) {
    && (forall i | 0 <= i < |chunks| :: Fits(c, chunks[i]))
    && (forall i | 0 <= i < |chunks| - 1 :: Full(c, chunks[i]))
  }

  // ------------------------------------------------------------------- bytes

  lemma {:induction false} BytesJoin(a: seq<Entry>, b: seq<Entry>)
    ensures Bytes(a + b) == Bytes(a) + Bytes(b)
  {
    if b == [] {
      assert a + b == a;
    } else {
      assert (a + b)[..|a + b| - 1] == a + b[..|b| - 1];
      BytesJoin(a, b[..|b| - 1]);
    }
  }

  lemma BytesFront(es: seq<Entry>, n: nat)
    requires 0 < n <= |es|
    ensures Bytes(es[..n]) == Size(es[0]) + Bytes(es[1..][..n - 1])
  {
    assert es[..n] == [es[0]] + es[1..][..n - 1];
    assert [es[0]][..0] == [];
    BytesJoin([es[0]], es[1..][..n - 1]);
  }

  lemma BytesGrow(es: seq<Entry>, m: nat, n: nat)
    requires m <= n <= |es|
    ensures Bytes(es[..m]) <= Bytes(es[..n])
  {
    assert es[..n] == es[..m] + es[m..n];
    BytesJoin(es[..m], es[m..n]);
  }

  // ---------------------------------------------------------- the greedy cut

  /** It stops at the first of: the entry cap, the byte cap, the end. */
  predicate StopsAt(es: seq<Entry>, maxEntries: int, maxBytes: int, n: nat)
    requires n <= |es|
  {
    && 1 <= n <= maxEntries && (n == 1 || Bytes(es[..n - 1]) < maxBytes)
    && (n == |es| || n == maxEntries || Bytes(es[..n]) >= maxBytes)
  }

  lemma {:induction false} CutStops(es: seq<Entry>, maxEntries: int, maxBytes: int)
    requires es != [] && maxEntries >= 1
    ensures StopsAt(es, maxEntries, maxBytes, Cut(es, maxEntries, maxBytes))
    decreases |es|
  {
    var n, b := Cut(es, maxEntries, maxBytes), maxBytes - Size(es[0]);
    assert Bytes([]) == 0;
    BytesFront(es, 1);
    if b > 0 && |es| > 1 && maxEntries > 1 {
      CutStops(es[1..], maxEntries - 1, b);
      BytesFront(es, n);
      BytesFront(es, n - 1);
    }
  }

  lemma StopsOnce(es: seq<Entry>, maxEntries: int, maxBytes: int, m: nat, n: nat)
    requires m <= |es| && n <= |es|
    requires StopsAt(es, maxEntries, maxBytes, m) && StopsAt(es, maxEntries, maxBytes, n)
    ensures m == n
  {
    if m < n { BytesGrow(es, m, n - 1); }
    if n < m { BytesGrow(es, n, m - 1); }
  }

  // ------------------------------------------------------------ the chunks

  lemma FirstChunk(c: Config, es: seq<Entry>)
    requires c.maxBatchEntries >= 1 && es != []
    ensures var n := ChunkSize(c, es); 0 < n && Fits(c, es[..n]) && (n < |es| ==> Full(c, es[..n]))
  {
    var n := ChunkSize(c, es);
    CutSteps(c, es);
    CutStops(es, c.maxBatchEntries, c.maxBatchBytes);
    hide Cut, Bytes;
    assert es[..n][..n - 1] == es[..n - 1];
  }

  lemma PackedCons(c: Config, chunk: seq<Entry>, rest: seq<seq<Entry>>)
    requires Fits(c, chunk) && Packed(c, rest) && (rest != [] ==> Full(c, chunk))
    ensures Packed(c, [chunk] + rest) && Concat([chunk] + rest) == chunk + Concat(rest)
  {
    hide Fits, Full;
    assert ([chunk] + rest)[1..] == rest;
  }

  lemma NoChunks(c: Config)
    requires c.maxBatchEntries >= 1
    ensures Chunks(c, []) == []
  {
  }

  lemma {:induction false} ChunksPacked(c: Config, es: seq<Entry>)
    requires c.maxBatchEntries >= 1
    ensures Concat(Chunks(c, es)) == es
    ensures Packed(c, Chunks(c, es))
    decreases |es|
  {
    if es != [] {
      var n := ChunkSize(c, es);
      FirstChunk(c, es);
      assert Chunks(c, es) == [es[..n]] + Chunks(c, es[n..]) && es == es[..n] + es[n..];
      hide Chunks, ChunkSize, Packed, Fits, Full, Concat;
      ChunksPacked(c, es[n..]);
      assert Chunks(c, es[n..]) != [] ==> n < |es| by { NoChunks(c); }
      PackedCons(c, es[..n], Chunks(c, es[n..]));
    }
  }

  /** The promises leave no choice. */
  lemma {:induction false} PackedOnce(c: Config, chunks: seq<seq<Entry>>)
    requires c.maxBatchEntries >= 1 && Packed(c, chunks)
    ensures chunks == Chunks(c, Concat(chunks))
  {
    hide Bytes, Cut;
    if chunks != [] {
      var es, n, rest := Concat(chunks), |chunks[0]|, chunks[1..];
      assert Fits(c, chunks[0]);
      assert es[..n] == chunks[0] && es[n..] == Concat(rest);
      assert chunks[0][..n - 1] == es[..n - 1];
      assert n == |es| || Full(c, chunks[0]) by {
        if rest == [] { assert Concat(rest) == []; }
      }
      assert StopsAt(es, c.maxBatchEntries, c.maxBatchBytes, n);
      CutStops(es, c.maxBatchEntries, c.maxBatchBytes);
      StopsOnce(es, c.maxBatchEntries, c.maxBatchBytes, n, ChunkSize(c, es));
      assert Packed(c, rest);
      PackedOnce(c, rest);
      hide Fits, Full, StopsAt;
    }
  }

  /** A cut is the greedy one exactly if it is packed. */
  lemma ChunksAreThePacked(c: Config, es: seq<Entry>, chunks: seq<seq<Entry>>)
    requires c.maxBatchEntries >= 1
    ensures chunks == Chunks(c, es) <==> Concat(chunks) == es && Packed(c, chunks)
  {
    ChunksPacked(c, es);
    if Concat(chunks) == es && Packed(c, chunks) { PackedOnce(c, chunks); }
    hide Chunks, Concat, Packed;
  }

  // ------------------------------------------------------- every interleaving

  /** The chunks of batch i that end in a run, whatever else happens in between. */
  ghost function EndedOf(c: Config, s: State, steps: seq<Step>, i: nat): seq<seq<Entry>> {
    if steps == [] then []
    else
      var n := |steps| - 1;
      var t := Run(c, s, steps[..n]);
      EndedOf(c, s, steps[..n], i)
      + if steps[n].Settling? && steps[n].flight == i && Underway(t, i) then [Taken(c, t, i)] else []
  }

  lemma StepChunks(c: Config, s: State, step: Step, i: nat)
    requires c.maxBatchEntries >= 1 && i < |s.flights|
    ensures var t := Next(c, s, step);
            && i < |t.flights|
            && Chunks(c, s.flights[i].rest)
            == (if step.Settling? && step.flight == i && Underway(s, i) then [Taken(c, s, i)] else [])
               + Chunks(c, t.flights[i].rest)
  {
    hide Cut, Bytes, KeyText, KeyLabels;
    if step.Settling? && step.flight == i && Underway(s, i) {
      CutSteps(c, s.flights[i].rest);
    } else {
      assert Next(c, s, step).flights[i] == s.flights[i];
      hide Next;
    }
  }

  /** In every interleaving, the chunks of a batch that have ended and the chunks of what is left of it
      make up the greedy chunks of the batch. */
  lemma {:induction false} ChunksInterleave(c: Config, s: State, steps: seq<Step>, i: nat)
    requires c.maxBatchEntries >= 1 && i < |s.flights|
    ensures var t := Run(c, s, steps);
            && i < |t.flights|
            && EndedOf(c, s, steps, i) + Chunks(c, t.flights[i].rest) == Chunks(c, s.flights[i].rest)
  {
    if steps != [] {
      hide Next, Chunks, Taken;
      var n := |steps| - 1;
      ChunksInterleave(c, s, steps[..n], i);
      StepChunks(c, Run(c, s, steps[..n]), steps[n], i);
    }
  }

  // ---------------------------------------------------------------- a flush

  /** All chunks of batch i, one after the other, nothing in between. */
  ghost function Drained(c: Config, s: State, i: nat, n: nat, outcome: nat -> Outcome): State
    requires c.maxBatchEntries >= 1 && i < |s.flights|
    decreases |s.flights[i].rest|
  {
    if s.flights[i].rest == [] then s
    else
      CutSteps(c, s.flights[i].rest);
      Drained(c, Settle(c, s, i, outcome(n)), i, n + 1, outcome)
  }

  ghost function Flushed(c: Config, s: State, key: string, now: int, outcome: nat -> Outcome): State
    requires c.maxBatchEntries >= 1
  {
    if Poppable(s, key) then Drained(c, Pop(s, key, now), |s.flights|, 0, outcome) else s
  }

  function Ends(labels: Labels, chunks: seq<seq<Entry>>, n: nat, outcome: nat -> Outcome): (r: seq<Chunk>)
    ensures |r| == |chunks|
    ensures forall j | 0 <= j < |r| :: r[j] == Chunk(labels, chunks[j], outcome(n + j))
  {
    seq(|chunks|, j requires 0 <= j < |chunks| => Chunk(labels, chunks[j], outcome(n + j)))
  }

  lemma EndsFront(labels: Labels, chunk: seq<Entry>, rest: seq<seq<Entry>>, n: nat, outcome: nat -> Outcome)
    ensures Ends(labels, [chunk] + rest, n, outcome)
         == [Chunk(labels, chunk, outcome(n))] + Ends(labels, rest, n + 1, outcome)
  {
  }

  lemma SettleTo(c: Config, s: State, i: nat, outcome: Outcome)
    requires Underway(s, i)
    ensures var u, f := Settle(c, s, i, outcome), s.flights[i];
            && u.done == s.done + [Chunk(f.labels, f.rest[..ChunkSize(c, f.rest)], outcome)]
            && u.flights == s.flights[i := f.(rest := f.rest[ChunkSize(c, f.rest)..])]
            && u.streams == s.streams
  {
    hide Cut, Bytes;
  }

  /** A flush ends the greedy chunks in order and touches no buffer. */
  lemma {:induction false} DrainedChunks(c: Config, s: State, i: nat, n: nat, outcome: nat -> Outcome)
    requires c.maxBatchEntries >= 1 && i < |s.flights|
    ensures var t, f := Drained(c, s, i, n, outcome), s.flights[i];
            && t.done == s.done + Ends(f.labels, Chunks(c, f.rest), n, outcome)
            && t.flights == s.flights[i := f.(rest := [])]
            && t.streams == s.streams
    decreases |s.flights[i].rest|
  {
    var f := s.flights[i];
    if f.rest == [] {
      assert s.flights[i := f.(rest := [])] == s.flights;
    } else {
      CutSteps(c, f.rest);
      hide Cut, Bytes;
      var u, k := Settle(c, s, i, outcome(n)), ChunkSize(c, f.rest);
      SettleTo(c, s, i, outcome(n));
      var rest := Chunks(c, f.rest[k..]);
      assert Chunks(c, f.rest) == [f.rest[..k]] + rest;
      hide Settle, Ends, Chunks, ChunkSize;
      DrainedChunks(c, u, i, n + 1, outcome);
      EndsFront(f.labels, f.rest[..k], rest, n, outcome);
    }
  }

  lemma {:induction false} DrainedSound(c: Config, s: State, i: nat, n: nat, outcome: nat -> Outcome)
    requires c.maxBatchEntries >= 1 && i < |s.flights| && Sound(c, s)
    ensures Sound(c, Drained(c, s, i, n, outcome))
    decreases |s.flights[i].rest|
  {
    hide Sound, Cut, Bytes;
    if s.flights[i].rest != [] {
      CutSteps(c, s.flights[i].rest);
      SettleKeeps(c, s, i, outcome(n));
      DrainedSound(c, Settle(c, s, i, outcome(n)), i, n + 1, outcome);
    }
  }

  lemma FlushedSound(c: Config, s: State, key: string, now: int, outcome: nat -> Outcome)
    requires c.maxBatchEntries >= 1 && Sound(c, s)
    ensures Sound(c, Flushed(c, s, key, now, outcome))
  {
    hide Sound;
    if Poppable(s, key) {
      PopKeeps(c, s, key, now);
      DrainedSound(c, Pop(s, key, now), |s.flights|, 0, outcome);
    }
  }

  /** What a flush does to its stream and what it sends. */
  lemma FlushedChunks(c: Config, s: State, key: string, now: int, outcome: nat -> Outcome)
    requires c.maxBatchEntries >= 1 && Poppable(s, key)
    ensures var t, b := Flushed(c, s, key, now, outcome), s.streams[key];
            && t.streams == s.streams[key := Emptied(b, now)]
            && t.done == s.done + Ends(b.labels, Chunks(c, b.entries), 0, outcome)
            && t.flights == s.flights + [Flight(b.labels, [])]
  {
    DrainedChunks(c, Pop(s, key, now), |s.flights|, 0, outcome);
  }

  // ---------------------------------------------------------- several streams

  ghost function FlushedAll(c: Config, s: State, keys: seq<string>, now: string -> int,
                            outcome: string -> nat -> Outcome): State
    requires c.maxBatchEntries >= 1
  {
    if keys == [] then s
    else
      var key := keys[|keys| - 1];
      Flushed(c, FlushedAll(c, s, keys[..|keys| - 1], now, outcome), key, now(key), outcome(key))
  }

  predicate Distinct(keys: seq<string>) {
    forall i, j | 0 <= i < j < |keys| :: keys[i] != keys[j]
  }

  /** A round of flushes empties the streams it names and no others. */
  lemma {:induction false} FlushedAllStreams(c: Config, s: State, keys: seq<string>, now: string -> int,
                                             outcome: string -> nat -> Outcome)
    requires c.maxBatchEntries >= 1 && Distinct(keys) && forall k | k in keys :: Poppable(s, k)
    ensures FlushedAll(c, s, keys, now, outcome).streams
         == map k | k in s.streams :: if k in keys then Emptied(s.streams[k], now(k)) else s.streams[k]
  {
    if keys != [] {
      var before, key := keys[..|keys| - 1], keys[|keys| - 1];
      FlushedAllStreams(c, s, before, now, outcome);
      var t := FlushedAll(c, s, before, now, outcome);
      assert key !in before && key in keys;
      hide Chunks, Ends;
      FlushedChunks(c, t, key, now(key), outcome(key));
      hide Flushed;
      assert forall k :: k in keys <==> k in before || k == key;
    }
  }

  lemma {:induction false} FlushedAllSound(c: Config, s: State, keys: seq<string>, now: string -> int,
                                           outcome: string -> nat -> Outcome)
    requires c.maxBatchEntries >= 1 && Sound(c, s)
    ensures Sound(c, FlushedAll(c, s, keys, now, outcome))
  {
    hide Sound, Flushed;
    if keys != [] {
      var before, key := keys[..|keys| - 1], keys[|keys| - 1];
      FlushedAllSound(c, s, before, now, outcome);
      FlushedSound(c, FlushedAll(c, s, before, now, outcome), key, now(key), outcome(key));
    }
  }

  /** flushDue takes these. */
  predicate Due(c: Config, b: Buffer, now: int) {
    b.entries != [] &&
    (b.bytes >= c.maxBatchBytes || |b.entries| >= c.maxBatchEntries || now - b.lastPush >= c.flushInterval)
  }
}
