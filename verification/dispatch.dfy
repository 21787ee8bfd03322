/**
 A consumer whose publisher field holds an AbstractPublisher: the round trip
 from incoming Transport bytes to outgoing Transport bytes.
 */
module Dispatch {
  import opened Wrappers
  import opened Exceptions
  import opened Envelope
  import Publishing
  import opened Consuming

  /**
   A successful relay answers with the encoding of a Transport whose context
   fields are the incoming context's schema text and buffer, unchanged, and
   whose message fields are the handler's output encoded against its own schema.
   */
  lemma RelayCarriesContext<I, O(!new)>(
    queueName: Option<string>, handler: (Context, I) -> Result<O, Throwable>, p: Publishing.Publisher<O>,
    codec: ConsumerCodec<I>, body: Bytes)
    requires Decodes(codec, body)
    requires handler(DecodedContext(codec, body), DecodedInput(codec, body)).Success?
    ensures
      var c := AttachPublisher(NewConsumer(queueName, handler), Publishing.AsPort(p));
      var context := DecodedContext(codec, body);
      var output := handler(context, DecodedInput(codec, body)).value;
      && (Consume(c, codec, body).result.Success? <==>
            && Publishing.PayloadEncodes(p.codec, output)
            && p.codec.writeTransport(Publishing.CarriedTransport(p.codec, context, output)).Success?)
      && (Consume(c, codec, body).result.Success? ==>
            Consume(c, codec, body).result
              == Success(Some(p.codec.writeTransport(Publishing.CarriedTransport(p.codec, context, output)).value)))
  {
  }

  /**
   Once decoding and handling succeed, every failure of a consumer relaying
   through an AbstractPublisher is publisher-side.
   */
  lemma RelayFailureStage<I, O(!new)>(
    queueName: Option<string>, handler: (Context, I) -> Result<O, Throwable>, p: Publishing.Publisher<O>,
    codec: ConsumerCodec<I>, body: Bytes)
    requires Decodes(codec, body)
    requires handler(DecodedContext(codec, body), DecodedInput(codec, body)).Success?
    ensures
      var c := AttachPublisher(NewConsumer(queueName, handler), Publishing.AsPort(p));
      Consume(c, codec, body).result.Failure? ==> IsPublisherSide(Consume(c, codec, body).result.error)
  {
  }
}
