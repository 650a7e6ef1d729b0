/**
 * Conversions between the agent's metric record and the gRPC message, and
 * between HTTP status codes and gRPC status codes (internal/utils/grpc/convert.go).
 */
module GrpcConvert {
  import opened Wrappers
  import opened GoStrconv
  import opened HttpStatus
  import opened Entities
  import ServerStorage

  /** The gRPC status codes the conversion can produce. */
  datatype Code = NotFound | InvalidArgument | Internal | Unimplemented | Unknown

  /** The protobuf metric: a value and a delta that default to zero. */
  datatype PbMetric = PbMetric(id: string, mType: string, delta: int, value: Float64)

  /** A record may be converted without dereferencing a nil pointer. */
  predicate PointerSet(m: Metrics) {
    (m.mType == "gauge" ==> m.value.Some?) && (m.mType == "counter" ==> m.delta.Some?)
  }

  /** ConvertCodeHTTPtoGRPC: the four error statuses map to their gRPC codes; anything else is Unknown. */
  function ConvertCodeHTTPtoGRPC(code: int): (c: Code)
    ensures c == NotFound <==> code == StatusNotFound
    ensures c == InvalidArgument <==> code == StatusBadRequest
    ensures c == Internal <==> code == StatusInternalServerError
    ensures c == Unimplemented <==> code == StatusNotImplemented
    ensures c == Unknown <==> code !in {StatusNotFound, StatusBadRequest, StatusInternalServerError, StatusNotImplemented}
  {
    if code == StatusNotFound then NotFound
    else if code == StatusBadRequest then InvalidArgument
    else if code == StatusInternalServerError then Internal
    else if code == StatusNotImplemented then Unimplemented
    else Unknown
  }

  /**
   * ConvertFromMetricsToGRPC: id and type are copied; a gauge carries its value, a
   * counter its delta, and the other number stays zero; any other type is an error
   * (None). Dereferencing the pointer the type selects needs it to be set.
   */
  function ConvertFromMetricsToGRPC(m: Metrics): (r: Option<PbMetric>)
    requires PointerSet(m)
    ensures r.Some? <==> m.mType == "gauge" || m.mType == "counter"
    ensures r.Some? ==> r.value.id == m.id && r.value.mType == m.mType
    ensures m.mType == "gauge" ==> r.value.value == m.value.value && r.value.delta == 0
    ensures m.mType == "counter" ==> r.value.delta == m.delta.value && r.value.value == FloatZero
  {
    if m.mType == "gauge" then Some(PbMetric(m.id, m.mType, 0, m.value.value))
    else if m.mType == "counter" then Some(PbMetric(m.id, m.mType, m.delta.value, FloatZero))
    else None
  }

  /**
   * Every refusal of the collector's store reaches a gRPC client with a specific
   * code, and success is the only status that becomes Unknown.
   */
  lemma StoreStatusesHaveCodes(parseFloat: FloatParser, m: map<string, string>, kind: string, name: string, value: string)
    ensures var status := ServerStorage.PutOutcome(parseFloat, m, kind, name, value).1;
      ConvertCodeHTTPtoGRPC(status) == Unknown <==> status == StatusOK
  {
  }

  /** Converting a gauge and a counter record built like the agent builds them. */
  lemma ConvertAgentRecords(name: string, v: Float64, d: int)
    ensures ConvertFromMetricsToGRPC(Metrics(name, "gauge", None, Some(v))) == Some(PbMetric(name, "gauge", 0, v))
    ensures ConvertFromMetricsToGRPC(Metrics(name, "counter", Some(d), None)) == Some(PbMetric(name, "counter", d, FloatZero))
    ensures ConvertFromMetricsToGRPC(Metrics(name, "histogram", None, None)) == None
  {
  }
}
