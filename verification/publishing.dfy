/**
 AbstractPublisher: encodes an outgoing payload against its own schema, carries
 the incoming Context through unchanged, assembles the four-field Transport
 and encodes it.

 The Avro calls are opaque, possibly failing functions held in a
 PublisherCodec. Publish returns its result together with the trace of Avro
 calls it made, so that the order of the stages can be stated.
 */
module Publishing {
  import opened Wrappers
  import opened Exceptions
  import opened Envelope

  /**
   The Avro calls AbstractPublisher makes:
   - getSchema: the payload's own `getSchema()`, rendered as schema text
     (raises on a null payload);
   - writeDatum: a SpecificDatumWriter for that schema writing the payload
     through a binary encoder, then flushing;
   - writeTransport: the Transport writer doing the same for the envelope.
   */
  datatype PublisherCodec<!O> = PublisherCodec(
    getSchema: O -> Result<string, Throwable>,
    writeDatum: (string, O) -> Result<Bytes, Throwable>,
    writeTransport: Transport -> Result<Bytes, Throwable>)

  /** One Avro call, in the order the publisher makes them */
  datatype AvroCall<O> =
    | GetSchema(payload: O)
    | WriteDatum(schema: string, payload: O)
    | WriteTransport(transport: Transport)

  /** A result paired with the Avro calls made to reach it */
  datatype Traced<T, O> = Traced(result: Result<T, Throwable>, calls: seq<AvroCall<O>>)

  /** A concrete AbstractPublisher: its queue name and the Avro calls it uses */
  datatype Publisher<!O> = Publisher(queueName: Option<string>, codec: PublisherCodec<O>) {

    /** `getQueueName()` */
    function GetQueueName(): Option<string>
    {
      queueName
    }
  }

  /** `IPublisher<O>`: what a consumer sees of a publisher; `publish` may return null (`None`) */
  datatype Port<!O> = Port(queueName: Option<string>, publish: (Option<Context>, O) -> Result<Option<Bytes>, Throwable>)

  /** The constructor `AbstractPublisher(queueName)` */
  function NewPublisher<O>(queueName: Option<string>, codec: PublisherCodec<O>): (p: Publisher<O>)
    ensures p.GetQueueName() == queueName
    ensures p.codec == codec
  {
    Publisher(queueName, codec)
  }

  /** The payload can be encoded: its schema is available and the writer accepts it */
  predicate PayloadEncodes<O>(codec: PublisherCodec<O>, payload: O)
  {
    codec.getSchema(payload).Success? && codec.writeDatum(codec.getSchema(payload).value, payload).Success?
  }

  /**
   `t` is the Transport that publishing `payload` in `context` must write: the
   context's schema text and buffer verbatim, then the payload's own schema
   and the bytes of the payload encoded against it.
   */
  predicate Carries<O>(codec: PublisherCodec<O>, context: Context, payload: O, t: Transport)
  {
    && t.contextSchema == context.schemaStr
    && t.contextBuffer == context.dataBuffer
    && codec.getSchema(payload) == Success(t.messageSchema)
    && codec.writeDatum(t.messageSchema, payload) == Success(t.messageBuffer)
  }

  /** The Transport publishing an encodable payload in `context` must write */
  function CarriedTransport<O>(codec: PublisherCodec<O>, context: Context, payload: O): (t: Transport)
    requires PayloadEncodes(codec, payload)
    ensures Carries(codec, context, payload, t)
  {
    var schema := codec.getSchema(payload).value;
    Transport(context.schemaStr, context.dataBuffer, schema, codec.writeDatum(schema, payload).value)
  }

  /** `encodeMessage(message)`: the payload as a Message, or EncodeMessageContentException */
  function EncodeMessage<O>(codec: PublisherCodec<O>, payload: O): (r: Traced<Message, O>)
    ensures r.result.Success? <==> PayloadEncodes(codec, payload)
    ensures r.result.Success? ==>
      && codec.getSchema(payload) == Success(r.result.value.schemaStr)
      && codec.writeDatum(r.result.value.schemaStr, payload) == Success(r.result.value.dataBuffer)
    ensures codec.getSchema(payload).Failure? ==>
      r.result == Failure(EncodeMessageContentError(codec.getSchema(payload).error))
    ensures codec.getSchema(payload).Success? && !PayloadEncodes(codec, payload) ==>
      r.result == Failure(EncodeMessageContentError(codec.writeDatum(codec.getSchema(payload).value, payload).error))
    ensures forall i :: 0 <= i < |r.calls| ==> !r.calls[i].WriteTransport?
  {
    match codec.getSchema(payload)
    case Failure(ex) =>
      Traced(Failure(EncodeMessageContentError(ex)), [GetSchema(payload)])
    case Success(schema) =>
      var calls := [GetSchema(payload), WriteDatum(schema, payload)];
      match codec.writeDatum(schema, payload)
      case Failure(ex) => Traced(Failure(EncodeMessageContentError(ex)), calls)
      case Success(bytes) => Traced(Success(Message(schema, bytes)), calls)
  }

  /** `writeTransport(...)`: the assembled Transport encoded, or EncodeTransportException */
  function WriteTransportBytes<O>(
    codec: PublisherCodec<O>, contextSchema: string, contextBuffer: Bytes, messageSchema: string, messageBuffer: Bytes)
    : (r: Traced<Bytes, O>)
    ensures |r.calls| == 1 && r.calls[0].WriteTransport?
    ensures Fields(r.calls[0].transport) == [
      Field("contextSchema", AvroString(contextSchema)),
      Field("contextBuffer", AvroBytes(contextBuffer)),
      Field("messageSchema", AvroString(messageSchema)),
      Field("messageBuffer", AvroBytes(messageBuffer))]
    ensures r.result.Success? ==> codec.writeTransport(r.calls[0].transport) == Success(r.result.value)
    ensures r.result.Failure? ==>
      && codec.writeTransport(r.calls[0].transport).Failure?
      && r.result.error == EncodeTransportError(codec.writeTransport(r.calls[0].transport).error)
  {
    var transport := Transport(contextSchema, contextBuffer, messageSchema, messageBuffer);
    match codec.writeTransport(transport)
    case Failure(ex) => Traced(Failure(EncodeTransportError(ex)), [WriteTransport(transport)])
    case Success(bytes) => Traced(Success(bytes), [WriteTransport(transport)])
  }

  /**
   The two catch clauses of `publish`: an OrizuruPublisherException (of any
   subclass) is rethrown as it is, anything else is wrapped in a plain one.
   */
  function Rethrow(ex: Throwable): (t: Throwable)
    ensures IsPublisherSide(t)
    ensures IsPublisherSide(ex) ==> t == ex
    ensures !IsPublisherSide(ex) ==> KindOf(t) == Some(OrizuruPublisherException) && CauseOf(t) == Some(ex)
  {
    if IsPublisherSide(ex) then ex else PublisherError(ex)
  }

  /** `publish(context, message)`; a null context is `None` */
  function Publish<O>(p: Publisher<O>, context: Option<Context>, payload: O): (r: Traced<Bytes, O>)
    // publishing either returns the whole encoded Transport or raises a publisher-side exception
    ensures r.result.Failure? ==> IsPublisherSide(r.result.error)
    ensures r.result.Success? ==>
      && |r.calls| > 0
      && r.calls[|r.calls| - 1].WriteTransport?
      && p.codec.writeTransport(r.calls[|r.calls| - 1].transport) == Success(r.result.value)
    // the Transport written carries the context verbatim and the freshly encoded payload
    ensures forall i :: 0 <= i < |r.calls| && r.calls[i].WriteTransport? ==>
      context.Some? && Carries(p.codec, context.value, payload, r.calls[i].transport)
    // the Transport is written at most once, and as the last call
    ensures forall i :: 0 <= i < |r.calls| - 1 ==> !r.calls[i].WriteTransport?
    // payload encoding failure: EncodeMessageContentException, no Transport written
    ensures !PayloadEncodes(p.codec, payload) ==>
      && r.result.Failure?
      && KindOf(r.result.error) == Some(EncodeMessageContentException)
      && (forall i :: 0 <= i < |r.calls| ==> !r.calls[i].WriteTransport?)
    ensures !PayloadEncodes(p.codec, payload) ==> r.result == Failure(EncodeMessage(p.codec, payload).result.error)
    ensures p.codec.getSchema(payload).Failure? ==>
      CauseOf(r.result.error) == Some(p.codec.getSchema(payload).error)
    ensures p.codec.getSchema(payload).Success? && !PayloadEncodes(p.codec, payload) ==>
      CauseOf(r.result.error) == Some(p.codec.writeDatum(p.codec.getSchema(payload).value, payload).error)
    // success exactly when the payload encodes, the context is non-null and the writer accepts the carried Transport
    ensures r.result.Success? <==>
      && PayloadEncodes(p.codec, payload) && context.Some?
      && p.codec.writeTransport(CarriedTransport(p.codec, context.value, payload)).Success?
    ensures PayloadEncodes(p.codec, payload) && context.Some? ==>
      var written := p.codec.writeTransport(CarriedTransport(p.codec, context.value, payload));
      && r.calls == [GetSchema(payload), WriteDatum(p.codec.getSchema(payload).value, payload),
                     WriteTransport(CarriedTransport(p.codec, context.value, payload))]
      && (written.Success? ==> r.result == Success(written.value))
      && (written.Failure? ==> r.result == Failure(EncodeTransportError(written.error)))
    // a null context is reached only after encoding the payload, and is wrapped in a plain publisher exception
    ensures PayloadEncodes(p.codec, payload) && context.None? ==>
      && r.result == Failure(PublisherError(NullPointer))
      && (forall i :: 0 <= i < |r.calls| ==> !r.calls[i].WriteTransport?)
    // Transport encoding failure: EncodeTransportException wrapping the writer's exception
    ensures r.result.Failure? && KindOf(r.result.error) == Some(EncodeTransportException) <==>
      && PayloadEncodes(p.codec, payload) && context.Some?
      && |r.calls| > 0 && r.calls[|r.calls| - 1].WriteTransport?
      && p.codec.writeTransport(r.calls[|r.calls| - 1].transport).Failure?
      && r.result.error == EncodeTransportError(p.codec.writeTransport(r.calls[|r.calls| - 1].transport).error)
  {
    var encoded := EncodeMessage(p.codec, payload);
    match encoded.result
    case Failure(ex) => Traced(Failure(Rethrow(ex)), encoded.calls)
    case Success(outgoing) =>
      match context
      case None => Traced(Failure(Rethrow(NullPointer)), encoded.calls)
      case Some(ctx) =>
        var written := WriteTransportBytes(p.codec, ctx.schemaStr, ctx.dataBuffer, outgoing.schemaStr, outgoing.dataBuffer);
        var result := match written.result
          case Success(bytes) => Success(bytes)
          case Failure(ex) => Failure(Rethrow(ex));
        Traced(result, encoded.calls + written.calls)
  }

  /** The publisher seen through `IPublisher<O>` */
  function AsPort<O(!new)>(p: Publisher<O>): (port: Port<O>)
    ensures port.queueName == p.GetQueueName()
    ensures forall context, payload :: port.publish(context, payload).Success? == Publish(p, context, payload).result.Success?
    ensures forall context, payload :: port.publish(context, payload).Success? ==>
      port.publish(context, payload).value == Some(Publish(p, context, payload).result.value)
    ensures forall context, payload :: port.publish(context, payload).Failure? ==>
      port.publish(context, payload).error == Publish(p, context, payload).result.error
  {
    Port(p.queueName, (context, payload) =>
      match Publish(p, context, payload).result
      case Success(bytes) => Success(Some(bytes))
      case Failure(ex) => Failure(ex))
  }
}
