/** Records of the gateway's pipeline (gateway/pkg/logtypes/log.go, gateway/pkg/types/types.go). */
module GatewayTypes {
  datatype NormalizedLog = NormalizedLog(timestamp: int, labels: map<string, string>, message: string, schema: string)

  datatype Provenance = Unspecified | Cache | Heuristic | LibreLog | Fallback

  datatype TemplateResult = TemplateResult(
    recordIndex: int, templateId: string, template: string, regex: string, groupSignature: string,
    confidence: real, provenance: Provenance, firstSeen: int, lastSeen: int, examples: seq<string>)

  datatype MinerShadow = MinerShadow(recordIndex: int, candidates: seq<TemplateResult>)

  datatype MinedRecord = MinedRecord(
    normalized: NormalizedLog, primary: TemplateResult, shadows: seq<TemplateResult>, fromFallback: bool, note: string)

  const MAX_INT32 := 0x7FFF_FFFF

  /** Go's int32(x) */
  function Int32(x: int): (r: int)
    ensures -0x8000_0000 <= r <= MAX_INT32
    ensures -0x8000_0000 <= x <= MAX_INT32 ==> r == x
  {
    (x + 0x8000_0000) % 0x1_0000_0000 - 0x8000_0000
  }

  function AtLeastOne(n: int): int { if n < 1 then 1 else n }
}
