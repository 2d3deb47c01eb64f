/** SyncResultOrchestrator: turns the Result of handling one ConfigSyncMessage into
    a ResultMessage and publishes it once. Routing and identity fields are copied
    from the source event, the status comes from the Result, the service fields
    from the service metadata, and the trace identity from the source event and
    the ambient trace (Activity.Current), which is passed in explicitly here. */
module SyncResultOrchestrator {
  import opened Domain
  import opened Text
  import opened ResultTopicPublisher

  const SuccessStatus := "SUCCESS"
  const FailedStatus := "FAILED"

  /** IServiceMetadata. */
  datatype ServiceMetadata = ServiceMetadata(
    organisation: string,
    region: string,
    environmentTier: string,
    serviceName: string)

  /** The ambient trace of the running activity, when there is one. */
  datatype TraceContext = TraceContext(traceId: string, spanId: string)

  /** The event that carried the sync message. */
  datatype EventMessage<P> = EventMessage(
    eventType: string,
    source: string,
    environmentName: string,
    correlationId: string,
    traceId: Option<string>,
    spanId: Option<string>,
    payload: P,
    timestampUtc: int)

  /** The record HandleResultAsync builds; `now` is the clock reading for TimestampUtc. */
  function BuildResultMessage<P>(
    sourceMessage: EventMessage<P>, result: Result, metadata: ServiceMetadata,
    ambient: Option<TraceContext>, now: int): (m: ResultMessage<P>)
    // status and message follow the Result
    ensures m.status == SuccessStatus <==> result.IsSuccess()
    ensures m.status == FailedStatus <==> !result.IsSuccess()
    ensures result.IsSuccess() ==> m.message.None?
    ensures !result.IsSuccess() ==> m.message == Some(result.error)
    // identity and routing fields are copied from the source event
    ensures m.eventType == sourceMessage.eventType && m.source == sourceMessage.source
    ensures m.environmentName == sourceMessage.environmentName
    ensures m.correlationId == sourceMessage.correlationId && m.payload == sourceMessage.payload
    // service fields come from the metadata
    ensures m.organisation == metadata.organisation && m.region == metadata.region
    ensures m.environmentTier == metadata.environmentTier && m.serviceName == metadata.serviceName
    // a source trace id wins, then the ambient one, then the empty string
    ensures !IsNullOrWhiteSpace(sourceMessage.traceId) ==> m.traceId == sourceMessage.traceId.value
    ensures IsNullOrWhiteSpace(sourceMessage.traceId) && ambient.Some? ==> m.traceId == ambient.value.traceId
    ensures IsNullOrWhiteSpace(sourceMessage.traceId) && ambient.None? ==> m.traceId == ""
    // the ambient span id wins over the source one
    ensures ambient.Some? ==> m.spanId == Some(ambient.value.spanId)
    ensures ambient.None? ==> m.spanId == sourceMessage.spanId
    ensures m.timestampUtc == now
  {
    ResultMessage(
      sourceMessage.eventType,
      sourceMessage.source,
      metadata.organisation,
      metadata.region,
      metadata.environmentTier,
      sourceMessage.environmentName,
      metadata.serviceName,
      sourceMessage.correlationId,
      if IsNullOrWhiteSpace(sourceMessage.traceId) then
        (if ambient.Some? then ambient.value.traceId else "")
      else sourceMessage.traceId.value,
      if ambient.Some? then Some(ambient.value.spanId) else sourceMessage.spanId,
      if result.IsSuccess() then SuccessStatus else FailedStatus,
      if result.IsSuccess() then None else Some(result.error),
      sourceMessage.payload,
      now)
  }

  /** What a subscriber sees of a handled message: the status property tells success
      from failure, a success carries no message property, a failure carries its error
      text whenever that text is not blank, and the correlation id is the source's. */
  lemma PublishedOutcome<P>(
    sent: ServiceBusMessage<P>, sourceMessage: EventMessage<P>, result: Result,
    metadata: ServiceMetadata, ambient: Option<TraceContext>, now: int)
    requires DescribesResult(sent, BuildResultMessage(sourceMessage, result, metadata, ambient, now))
    ensures StatusProperty in sent.applicationProperties
    ensures sent.applicationProperties[StatusProperty] == SuccessStatus <==> result.IsSuccess()
    ensures MessageProperty in sent.applicationProperties <==> !result.IsSuccess() && !IsBlank(result.error)
    ensures MessageProperty in sent.applicationProperties ==> sent.applicationProperties[MessageProperty] == result.error
    ensures sent.correlationId == sourceMessage.correlationId && sent.subject == sourceMessage.eventType
  {
    var m := BuildResultMessage(sourceMessage, result, metadata, ambient, now);
    assert StatusProperty in sent.applicationProperties.Keys;
    assert MessageProperty != StatusProperty && MessageProperty != SourceProperty;
    assert MessageProperty != EnvironmentNameProperty && MessageProperty != TraceIdProperty;
    assert MessageProperty != SpanIdProperty;
  }

  /** The trace identity a subscriber sees: the traceId property is the source's trace
      id when it has one and the ambient one otherwise, and a spanId property is present
      whenever an ambient span exists. */
  lemma PublishedTraceIdentity<P>(
    sent: ServiceBusMessage<P>, sourceMessage: EventMessage<P>, result: Result,
    metadata: ServiceMetadata, ambient: Option<TraceContext>, now: int)
    requires DescribesResult(sent, BuildResultMessage(sourceMessage, result, metadata, ambient, now))
    ensures TraceIdProperty in sent.applicationProperties
    ensures !IsNullOrWhiteSpace(sourceMessage.traceId) ==>
              sent.applicationProperties[TraceIdProperty] == sourceMessage.traceId.value
    ensures IsNullOrWhiteSpace(sourceMessage.traceId) && ambient.Some? ==>
              sent.applicationProperties[TraceIdProperty] == ambient.value.traceId
    ensures ambient.Some? && !IsBlank(ambient.value.spanId) ==>
              SpanIdProperty in sent.applicationProperties
              && sent.applicationProperties[SpanIdProperty] == ambient.value.spanId
  {
    assert TraceIdProperty in sent.applicationProperties.Keys;
  }

  class SyncResultOrchestrator<P> {
    const resultPublisher: ResultTopicPublisher<P>
    const serviceMetadata: ServiceMetadata

    constructor (resultPublisher: ResultTopicPublisher<P>, serviceMetadata: ServiceMetadata)
      ensures this.resultPublisher == resultPublisher && this.serviceMetadata == serviceMetadata
    {
      this.resultPublisher := resultPublisher;
      this.serviceMetadata := serviceMetadata;
    }

    /** HandleResultAsync: builds the record and publishes it exactly once; a publish
        failure propagates to the caller. */
    method HandleResultAsync(sourceMessage: EventMessage<P>, result: Result, ambient: Option<TraceContext>, now: int)
      returns (r: Try<()>)
      modifies resultPublisher
      ensures resultPublisher.sendFailure == old(resultPublisher.sendFailure)
      ensures old(resultPublisher.sendFailure).Some? ==>
                r == Throw(Exn(old(resultPublisher.sendFailure).value))
                && resultPublisher.sent == old(resultPublisher.sent)
      ensures old(resultPublisher.sendFailure).None? ==>
                && r == Return(())
                && |resultPublisher.sent| == |old(resultPublisher.sent)| + 1
                && resultPublisher.sent[..|old(resultPublisher.sent)|] == old(resultPublisher.sent)
                && DescribesResult(resultPublisher.sent[|old(resultPublisher.sent)|],
                                   BuildResultMessage(sourceMessage, result, serviceMetadata, ambient, now))
    {
      var resultMessage := BuildResultMessage(sourceMessage, result, serviceMetadata, ambient, now);
      r := resultPublisher.PublishAsync(Some(resultMessage));
    }
  }
}
