/** `com.util.ResultPublisher`: wraps a job id and a result text in a
    `ResultMessage`, serializes it and sends it to the response queue.
    Serialization and transport failures are logged and dropped: a call
    never fails and sends at most one message. */
module Publishing {
  import opened JavaLang

  /** `ResultPublisher.ResultMessage`: the immutable pair handed to the
      serializer; its getters `getJobId()` and `getResult()` are the fields. */
  datatype ResultMessage = ResultMessage(jobId: Nullable, result: Nullable)

  /** The request handed to `sendMessage`. */
  datatype SendMessageRequest = SendMessageRequest(queueUrl: string, messageBody: string)

  /** What the JSON serializer makes of a message: its text, or a
      `JsonProcessingException`. */
  datatype Serialization = Serialized(body: string) | SerializationFailed(message: Nullable)

  /** What the queue makes of a send: it accepts it, or the client throws an
      `SqsException`. */
  datatype Transport = Accepted | SqsFailure(message: Nullable)

  /** One `publishResult` call, with the outcome its send would meet. */
  datatype Call = Call(queueUrl: string, jobId: Nullable, result: Nullable, transport: Transport)

  /** The request a call hands to `sendMessage`: present exactly when the
      message built from the call's own job id and result serializes. */
  function SendAttempt(serialize: ResultMessage -> Serialization, c: Call): (r: Option<SendMessageRequest>)
    ensures r.Some? <==> serialize(ResultMessage(c.jobId, c.result)).Serialized?
    ensures r.Some? ==> r.value.queueUrl == c.queueUrl && r.value.messageBody == serialize(ResultMessage(c.jobId, c.result)).body
  {
    match serialize(ResultMessage(c.jobId, c.result))
    case Serialized(body) => Some(SendMessageRequest(c.queueUrl, body))
    case SerializationFailed(_) => None
  }

  /** The messages a sequence of calls puts on the queue, in order. */
  function Deliveries(serialize: ResultMessage -> Serialization, calls: seq<Call>): seq<SendMessageRequest>
  {
    if calls == [] then []
    else
      var c := calls[|calls| - 1];
      Deliveries(serialize, calls[..|calls| - 1]) +
        match SendAttempt(serialize, c)
        case Some(request) => if c.transport.Accepted? then [request] else []
        case None => []
  }

  /** Calls never put more messages on the queue than there are calls, and
      every message on the queue is the serialized message of a call whose
      send was accepted. */
  lemma {:induction false} DeliveriesBound(serialize: ResultMessage -> Serialization, calls: seq<Call>)
    ensures |Deliveries(serialize, calls)| <= |calls|
    ensures forall r :: r in Deliveries(serialize, calls) ==>
      exists c :: c in calls && c.transport.Accepted? && SendAttempt(serialize, c) == Some(r)
  {
    if calls != [] {
      var init := calls[..|calls| - 1];
      DeliveriesBound(serialize, init);
      forall c | c in init ensures c in calls {
        var i :| 0 <= i < |init| && init[i] == c;
        assert calls[i] == c;
      }
    }
  }

  class ResultPublisher {
    /** The object mapper's `writeValueAsString`. */
    const writeValueAsString: ResultMessage -> Serialization
    /** Every request handed to `sendMessage`, in order. */
    var attempts: seq<SendMessageRequest>
    /** The requests the queue accepted, in order: the response channel. */
    var delivered: seq<SendMessageRequest>

    constructor (writeValueAsString: ResultMessage -> Serialization)
      ensures this.writeValueAsString == writeValueAsString
      ensures attempts == [] && delivered == []
    {
      this.writeValueAsString := writeValueAsString;
      attempts, delivered := [], [];
    }

    /** `publishResult(responseQueueUrl, jobId, result)`: the serializer is
        given the message made of exactly `jobId` and `result`. When it
        fails nothing is sent; otherwise one request with its text goes to
        `responseQueueUrl`, and the queue holds it unless the send failed.
        No failure reaches the caller. */
    method PublishResult(responseQueueUrl: string, jobId: Nullable, result: Nullable, transport: Transport)
      modifies this
      ensures writeValueAsString(ResultMessage(jobId, result)).SerializationFailed? ==>
        attempts == old(attempts) && delivered == old(delivered)
      ensures writeValueAsString(ResultMessage(jobId, result)).Serialized? ==>
        var request := SendMessageRequest(responseQueueUrl, writeValueAsString(ResultMessage(jobId, result)).body);
        attempts == old(attempts) + [request] &&
        delivered == old(delivered) + (if transport.Accepted? then [request] else [])
      ensures delivered == old(delivered) + Deliveries(writeValueAsString, [Call(responseQueueUrl, jobId, result, transport)])
    {
      var resultMessage := ResultMessage(jobId, result);
      var serialized := writeValueAsString(resultMessage);
      assert [Call(responseQueueUrl, jobId, result, transport)][..0] == [];
      match serialized
      case SerializationFailed(_) =>
        // logged and dropped
      case Serialized(body) =>
        var request := SendMessageRequest(responseQueueUrl, body);
        attempts := attempts + [request];
        match transport
        case Accepted =>
          delivered := delivered + [request];
        case SqsFailure(_) =>
          // logged and dropped
    }
  }
}
