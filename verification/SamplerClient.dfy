/** The gateway's client of the sampler (gateway/pkg/sampler/client.go:45-187): one RPC per batch behind
    the breaker, and a decision for every record whatever comes back. */
module SamplerClients {
  import opened Breakers
  import opened GatewayTypes
  import opened GoStrings
  import opened Options

  // ---------------------------------------------------------------- records

  datatype Severity = AnySeverity | Debug | Info | Warn | Error | Fatal

  datatype Action = NoAction | Keep | Suppress

  datatype KeepReason = NoReason | Severe | Novel | Spike | Warmup | Log2 | SteadyK | Budget

  datatype WindowCounts = WindowCounts(count10m: nat, count1h: nat, count24h: nat)

  datatype Decision = Decision(
    recordIndex: int, action: Action, keepReason: KeepReason, counters: Option<WindowCounts>, sampleRate: nat,
    policyVersion: string, note: string)

  const NO_DECISION := Decision(0, NoAction, NoReason, None, 0, "", "")

  /** What a record brings to the sampler. */
  datatype Record = Record(normalized: NormalizedLog, templateId: string, shadow: bool)

  class PipelineRecord {
    const normalized: NormalizedLog
    const templateId: string
    var decision: Decision
    var shadow: bool

    constructor (normalized: NormalizedLog, templateId: string)
      ensures Value() == Record(normalized, templateId, false) && decision == NO_DECISION
    {
      this.normalized, this.templateId := normalized, templateId;
      decision, shadow := NO_DECISION, false;
    }

    ghost function Value(): Record
      reads this
    {
      Record(normalized, templateId, shadow)
    }
  }

  // --------------------------------------------------------------- requests

  datatype DecisionRequest = DecisionRequest(
    recordIndex: int, timestamp: int, labels: map<string, string>, templateId: string, severity: Severity,
    tenantId: string)

  const POLICY_LABELS: set<string> := {"service", "env", "severity", "k8s_namespace", "pod"}

  function PickPolicyLabels(all: map<string, string>): map<string, string> {
    map k | k in all && k in POLICY_LABELS :: all[k]
  }

  function MapSeverity(sev: string): Severity {
    var s := ToLower(sev);
    if s == "debug" then Debug
    else if s == "info" then Info
    else if s == "warn" || s == "warning" then Warn
    else if s == "error" then Error
    else if s == "fatal" then Fatal
    else AnySeverity
  }

  function ExtractTenantId(labels: map<string, string>): string {
    if "tenant" in labels then labels["tenant"]
    else if "tenant_id" in labels then labels["tenant_id"]
    else ""
  }

  function RequestOf(r: Record, i: nat): DecisionRequest {
    DecisionRequest(Int32(i), r.normalized.timestamp, PickPolicyLabels(r.normalized.labels), r.templateId,
                    MapSeverity(r.normalized.schema), ExtractTenantId(r.normalized.labels))
  }

  function Requests(rs: seq<Record>): (reqs: seq<DecisionRequest>)
    ensures |reqs| == |rs| && forall i | 0 <= i < |rs| :: reqs[i] == RequestOf(rs[i], i)
  {
    seq(|rs|, i requires 0 <= i < |rs| => RequestOf(rs[i], i))
  }

  /** The sampler is asked for each record under its own index and time, with its template, five of its labels, its
      severity and its tenant. */
  lemma AskedOf(rs: seq<Record>, i: nat)
    requires i < |rs| <= MAX_INT32
    ensures var q, r := Requests(rs)[i], rs[i]; var all, sev := r.normalized.labels, ToLower(r.normalized.schema);
            && q.recordIndex == i && q.timestamp == r.normalized.timestamp && q.templateId == r.templateId
            && (forall k :: k in q.labels <==> k in all && k in {"service", "env", "severity", "k8s_namespace", "pod"})
            && (forall k | k in q.labels :: q.labels[k] == all[k])
            && (q.severity == Debug <==> sev == "debug") && (q.severity == Info <==> sev == "info")
            && (q.severity == Warn <==> sev in {"warn", "warning"}) && (q.severity == Error <==> sev == "error")
            && (q.severity == Fatal <==> sev == "fatal")
            && ("tenant" in all ==> q.tenantId == all["tenant"])
            && ("tenant" !in all && "tenant_id" in all ==> q.tenantId == all["tenant_id"])
            && ("tenant" !in all && "tenant_id" !in all ==> q.tenantId == "")
  {
    hide ToLower;
  }

  // ---------------------------------------------------------------- answers

  datatype Answer = RpcError | NoResponse | Response(items: seq<Option<Decision>>)

  /** A response must have as many items as the request. */
  predicate Usable(a: Answer, n: nat) { a.Response? && |a.items| == n }

  /** The last of several decisions for one index counts. */
  function DecisionFor(items: seq<Option<Decision>>, index: int): Option<Decision> {
    if items == [] then None
    else
      var last := items[|items| - 1];
      if last.Some? && last.value.recordIndex == index then last else DecisionFor(items[..|items| - 1], index)
  }

  function FallbackDecision(index: int): Decision {
    Decision(index, Keep, Warmup, Some(WindowCounts(0, 0, 0)), 1, "fallback", "fallback decision")
  }

  function DecisionAt(i: nat, n: nat, open: bool, a: Answer): Decision {
    if open || !Usable(a, n) then FallbackDecision(Int32(i))
    else
      var d := DecisionFor(a.items, Int32(i));
      if d.Some? then d.value else FallbackDecision(Int32(i))
  }

  predicate Answers(item: Option<Decision>, index: int) { item.Some? && item.value.recordIndex == index }

  /** items[j] is the last decision for the index. */
  ghost predicate LastDecision(items: seq<Option<Decision>>, index: int, j: int) {
    && 0 <= j < |items| && Answers(items[j], index)
    && forall l | j < l < |items| :: !Answers(items[l], index)
  }

  lemma {:induction false} DecisionFound(items: seq<Option<Decision>>, index: int)
    ensures match DecisionFor(items, index)
            case Some(d) => exists j :: LastDecision(items, index, j) && items[j] == Some(d)
            case None => forall j | 0 <= j < |items| :: !Answers(items[j], index)
  {
    if items != [] {
      var m := |items| - 1;
      var rest := items[..m];
      DecisionFound(rest, index);
      if Answers(items[m], index) {
        assert LastDecision(items, index, m);
      } else if DecisionFor(rest, index).Some? {
        var j :| LastDecision(rest, index, j) && rest[j] == DecisionFor(rest, index);
        assert LastDecision(items, index, j) && items[j] == rest[j];
      } else {
        forall j | 0 <= j < |items| ensures !Answers(items[j], index) {
          if j < m { assert !Answers(rest[j], index); }
        }
      }
    }
  }

  /** Only the sampler's own, and last, word at the record's own index takes a record off the safe side. */
  lemma SuppressedByAnswer(i: nat, n: nat, open: bool, a: Answer)
    requires i < n <= MAX_INT32 && DecisionAt(i, n, open, a).action != Keep
    ensures !open && Usable(a, n)
    ensures exists j :: LastDecision(a.items, i, j) && a.items[j] == Some(DecisionAt(i, n, open, a))
  {
    DecisionFound(a.items, i);
  }

  /** With the breaker closed and a usable response, that word is what counts, if there is one. */
  lemma DecidedByAnswer(i: nat, n: nat, a: Answer, j: int)
    requires i < n <= MAX_INT32 && Usable(a, n) && LastDecision(a.items, i, j)
    ensures Some(DecisionAt(i, n, false, a)) == a.items[j]
  {
    DecisionFound(a.items, i);
  }

  // ----------------------------------------------------------------- breaker

  const MAX_FAILURES := 5
  const TIMEOUT := 30000

  ghost predicate IsOpen(h: seq<Call>, now: int) { Tripped(h, MAX_FAILURES, TIMEOUT, now) }

  /** What a batch of n records leaves in the history of the breaker. */
  ghost function Called(h: seq<Call>, n: nat, now: int, later: int, a: Answer): seq<Call> {
    if n == 0 || IsOpen(h, now) then h
    else if Usable(a, n) then h + [Succeeded]
    else h + [Breakers.Failed(later)]
  }

  ghost function Values(items: seq<PipelineRecord>): (rs: seq<Record>)
    reads items
    ensures |rs| == |items| && forall i | 0 <= i < |items| :: rs[i] == items[i].Value()
  {
    seq(|items|, i requires 0 <= i < |items| reads items => items[i].Value())
  }

  predicate Distinct(items: seq<PipelineRecord>) {
    forall i, j | 0 <= i < j < |items| :: items[i] != items[j]
  }

  class SamplerClient {
    const breaker: Breaker

    constructor ()
      ensures fresh(breaker) && breaker.Valid() && breaker.history == []
      ensures breaker.maxFailures == MAX_FAILURES && breaker.timeout == TIMEOUT
    {
      breaker := new Breaker(5, 30 * 1000);
    }

    ghost predicate Valid()
      reads breaker
    {
      breaker.Valid() && breaker.maxFailures == MAX_FAILURES && breaker.timeout == TIMEOUT
    }

    method FallBack(items: seq<PipelineRecord>)
      requires Distinct(items)
      modifies items`decision
      ensures forall i | 0 <= i < |items| :: items[i].decision == FallbackDecision(Int32(i))
    {
      var i := 0;
      while i < |items|
        invariant 0 <= i <= |items|
        invariant forall j | 0 <= j < i :: items[j].decision == FallbackDecision(Int32(j))
      {
        items[i].decision := FallbackDecision(Int32(i));
        i := i + 1;
      }
    }

    method BuildRequests(items: seq<PipelineRecord>) returns (reqs: seq<DecisionRequest>)
      ensures reqs == Requests(Values(items))
    {
      hide RequestOf;
      reqs := [];
      var i := 0;
      while i < |items|
        invariant 0 <= i <= |items|
        invariant reqs == Requests(Values(items))[..i]
      {
        var it := items[i];
        reqs := reqs + [RequestOf(Record(it.normalized, it.templateId, it.shadow), i)];
        i := i + 1;
      }
    }

    method MapDecisions(ds: seq<Option<Decision>>) returns (decisionMap: map<int, Decision>)
      ensures forall i :: i in decisionMap <==> DecisionFor(ds, i).Some?
      ensures forall i | i in decisionMap :: decisionMap[i] == DecisionFor(ds, i).value
    {
      decisionMap := map[];
      var j := 0;
      while j < |ds|
        invariant 0 <= j <= |ds|
        invariant forall i :: i in decisionMap <==> DecisionFor(ds[..j], i).Some?
        invariant forall i | i in decisionMap :: decisionMap[i] == DecisionFor(ds[..j], i).value
      {
        assert ds[..j + 1][..j] == ds[..j];
        if ds[j].Some? {
          decisionMap := decisionMap[ds[j].value.recordIndex := ds[j].value];
        }
        j := j + 1;
      }
      assert ds[..j] == ds;
    }

    method Apply(items: seq<PipelineRecord>, ds: seq<Option<Decision>>)
      requires Distinct(items) && |ds| == |items|
      modifies items`decision
      ensures forall i | 0 <= i < |items| :: items[i].decision == DecisionAt(i, |items|, false, Response(ds))
    {
      var decisionMap := MapDecisions(ds);
      var i := 0;
      while i < |items|
        invariant 0 <= i <= |items|
        invariant forall j | 0 <= j < i :: items[j].decision == DecisionAt(j, |items|, false, Response(ds))
      {
        var recordIndex := Int32(i);
        if recordIndex in decisionMap {
          items[i].decision := decisionMap[recordIndex];
        } else {
          items[i].decision := FallbackDecision(recordIndex);
        }
        i := i + 1;
      }
    }

    /** The clock shows now at the start and later when the RPC has come back. */
    method DecideBatch(items: seq<PipelineRecord>, now: int, later: int, rpc: seq<DecisionRequest> -> Answer)
      returns (ok: bool)
      requires Valid() && Distinct(items) && now > 0
      modifies breaker, items`decision
      ensures Valid()
      ensures var a := rpc(Requests(old(Values(items))));
              && breaker.history == Called(old(breaker.history), |items|, now, later, a)
              && (forall i | 0 <= i < |items| ::
                    items[i].decision == DecisionAt(i, |items|, IsOpen(old(breaker.history), now), a))
              && (ok <==> |items| == 0 || IsOpen(old(breaker.history), now) || Usable(a, |items|))
    {
      hide DecisionFor, Distinct, Tripped, RequestOf;
      if |items| == 0 {
        return true;
      }
      var open := breaker.Open(now);
      if open {
        FallBack(items);
        return true;
      }
      var reqs := BuildRequests(items);
      var answer := rpc(reqs);
      if !answer.Response? || |answer.items| != |items| {
        breaker.Fail(later);
        FallBack(items);
        return false;
      }
      breaker.Success();
      Apply(items, answer.items);
      return true;
    }
  }
}
