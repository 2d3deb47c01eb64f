/** ResultTopicPublisher: sends a ResultMessage to the results topic as one Service
    Bus message whose body is the serialised record and whose application
    properties repeat the fields a subscriber filters on. The status, source,
    environmentName and traceId properties are always set; spanId and message only
    when they hold text. */
module ResultTopicPublisher {
  import opened Domain
  import opened Text

  const JsonContentType := "application/json"
  const ResultNullMessage := "Value cannot be null. (Parameter 'result')"
  const TopicNameRequiredMessage := "Topic name must be provided. (Parameter 'topicName')"
  const FactoryNullMessage := "Value cannot be null. (Parameter 'factory')"

  const StatusProperty := "status"
  const SourceProperty := "source"
  const EnvironmentNameProperty := "environmentName"
  const TraceIdProperty := "traceId"
  const SpanIdProperty := "spanId"
  const MessageProperty := "message"

  /** The result record published for one handled message. */
  datatype ResultMessage<P> = ResultMessage(
    eventType: string,
    source: string,
    organisation: string,
    region: string,
    environmentTier: string,
    environmentName: string,
    serviceName: string,
    correlationId: string,
    traceId: string,
    spanId: Option<string>,
    status: string,
    message: Option<string>,
    payload: P,
    timestampUtc: int)

  /** A Service Bus message; `body` stands for the JSON serialisation of the record. */
  datatype ServiceBusMessage<P> = ServiceBusMessage(
    body: ResultMessage<P>,
    correlationId: string,
    subject: string,
    contentType: string,
    applicationProperties: map<string, string>)

  /** The message PublishAsync sends for a result: its envelope and every property. */
  ghost predicate DescribesResult<P>(m: ServiceBusMessage<P>, r: ResultMessage<P>)
  {
    && m.body == r
    && m.correlationId == r.correlationId
    && m.subject == r.eventType
    && m.contentType == JsonContentType
    && m.applicationProperties.Keys
       == {StatusProperty, SourceProperty, EnvironmentNameProperty, TraceIdProperty}
          + (if IsNullOrWhiteSpace(r.spanId) then {} else {SpanIdProperty})
          + (if IsNullOrWhiteSpace(r.message) then {} else {MessageProperty})
    && m.applicationProperties[StatusProperty] == r.status
    && m.applicationProperties[SourceProperty] == r.source
    && m.applicationProperties[EnvironmentNameProperty] == r.environmentName
    && m.applicationProperties[TraceIdProperty] == r.traceId
    && (!IsNullOrWhiteSpace(r.spanId) ==> m.applicationProperties[SpanIdProperty] == r.spanId.value)
    && (!IsNullOrWhiteSpace(r.message) ==> m.applicationProperties[MessageProperty] == r.message.value)
  }

  /** A result has exactly one message that describes it. */
  lemma DescribesResultUnique<P>(m1: ServiceBusMessage<P>, m2: ServiceBusMessage<P>, r: ResultMessage<P>)
    requires DescribesResult(m1, r) && DescribesResult(m2, r)
    ensures m1 == m2
  {
    var p1 := m1.applicationProperties;
    var p2 := m2.applicationProperties;
    forall k | k in p1
      ensures k in p2 && p1[k] == p2[k]
    {
    }
    assert p1 == p2;
  }

  /** The envelope built inside PublishAsync: the message is created with the
      serialised body, then its properties are filled in one by one. */
  method BuildServiceBusMessage<P>(result: ResultMessage<P>) returns (m: ServiceBusMessage<P>)
    ensures DescribesResult(m, result)
  {
    m := ServiceBusMessage(result, result.correlationId, result.eventType, JsonContentType, map[]);
    m := m.(applicationProperties := m.applicationProperties[StatusProperty := result.status]);
    m := m.(applicationProperties := m.applicationProperties[SourceProperty := result.source]);
    m := m.(applicationProperties := m.applicationProperties[EnvironmentNameProperty := result.environmentName]);
    m := m.(applicationProperties := m.applicationProperties[TraceIdProperty := result.traceId]);
    if !IsNullOrWhiteSpace(result.spanId) {
      m := m.(applicationProperties := m.applicationProperties[SpanIdProperty := result.spanId.value]);
    }
    if !IsNullOrWhiteSpace(result.message) {
      m := m.(applicationProperties := m.applicationProperties[MessageProperty := result.message.value]);
    }
  }

  /** The publisher for one topic. `sent` is what the topic has received through it;
      when `sendFailure` is Some(e) the sender rejects every send with message e. */
  class ResultTopicPublisher<P> {
    const topicName: string
    var sent: seq<ServiceBusMessage<P>>
    var sendFailure: Option<string>

    constructor (topicName: string, sendFailure: Option<string>)
      ensures this.topicName == topicName && sent == [] && this.sendFailure == sendFailure
    {
      this.topicName := topicName;
      this.sent := [];
      this.sendFailure := sendFailure;
    }

    /** The public constructor: a blank topic name and a missing credential factory
        are rejected, in that order. */
    static method Create(topicName: Option<string>, hasFactory: bool, sendFailure: Option<string>)
      returns (r: Try<ResultTopicPublisher<P>>)
      ensures IsNullOrWhiteSpace(topicName) ==> r == Throw(Exn(TopicNameRequiredMessage))
      ensures !IsNullOrWhiteSpace(topicName) && !hasFactory ==> r == Throw(Exn(FactoryNullMessage))
      ensures r.Return? <==> !IsNullOrWhiteSpace(topicName) && hasFactory
      ensures r.Return? ==> fresh(r.value) && r.value.topicName == topicName.value && r.value.sent == []
      ensures r.Return? ==> r.value.sendFailure == sendFailure
    {
      if IsNullOrWhiteSpace(topicName) {
        return Throw(Exn(TopicNameRequiredMessage));
      }
      if !hasFactory {
        return Throw(Exn(FactoryNullMessage));
      }
      var publisher := new ResultTopicPublisher(topicName.value, sendFailure);
      r := Return(publisher);
    }

    /** PublishAsync: a null result throws before anything is sent; otherwise one
        message describing the result is sent, and a send failure is rethrown with
        nothing sent. */
    method PublishAsync(result: Option<ResultMessage<P>>) returns (r: Try<()>)
      modifies this
      ensures sendFailure == old(sendFailure)
      ensures result.None? ==> r == Throw(Exn(ResultNullMessage)) && sent == old(sent)
      ensures result.Some? && sendFailure.Some? ==> r == Throw(Exn(sendFailure.value)) && sent == old(sent)
      ensures result.Some? && sendFailure.None? ==>
                && r == Return(())
                && |sent| == |old(sent)| + 1 && sent[..|old(sent)|] == old(sent)
                && DescribesResult(sent[|old(sent)|], result.value)
    {
      if result.None? {
        return Throw(Exn(ResultNullMessage));
      }
      var message := BuildServiceBusMessage(result.value);
      if sendFailure.Some? {
        return Throw(Exn(sendFailure.value));
      }
      sent := sent + [message];
      r := Return(());
    }
  }
}
