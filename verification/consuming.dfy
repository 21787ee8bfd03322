/**
 AbstractConsumer: decodes the Transport, extracts the Context and the typed
 input, calls the handler once, and forwards the handler's output to the
 attached publisher, if any.

 The Avro reader and the Context/Message decoders are opaque, possibly failing
 functions held in a ConsumerCodec; the handler and the publisher are function
 values held in the Consumer. Consume returns its result together with the
 trace of calls it made, so that ordering and "never invoked" can be stated.
 */
module Consuming {
  import opened Wrappers
  import opened Exceptions
  import opened Envelope
  import Publishing

  /**
   The calls AbstractConsumer makes into code outside it:
   - readTransport: a SpecificDatumReader for the Transport schema reading a
     binary decoder over the body;
   - contextFromTransport: `new Context()` then `decodeFromTransport(transport)`;
   - messageFromTransport: `new Message()` then `decodeFromTransport(transport)`;
   - decode: `Message.decode()`, producing the typed input.
   */
  datatype ConsumerCodec<!I> = ConsumerCodec(
    readTransport: Bytes -> Result<Transport, Throwable>,
    contextFromTransport: Transport -> Result<Context, Throwable>,
    messageFromTransport: Transport -> Result<Message, Throwable>,
    decode: Message -> Result<I, Throwable>)

  /**
   A concrete AbstractConsumer: its queue name, its `handleMessage`
   implementation and the optional publisher field (`None` is null).
   */
  datatype Consumer<!I, !O> = Consumer(
    queueName: Option<string>,
    handleMessage: (Context, I) -> Result<O, Throwable>,
    publisher: Option<Publishing.Port<O>>)
  {
    /** `getQueueName()` */
    function GetQueueName(): Option<string>
    {
      queueName
    }
  }

  /** One call made by `consume`, in order */
  datatype Call<I, O> =
    | ReadTransport(body: Bytes)
    | DecodeContext(transport: Transport)
    | DecodeMessage(transport: Transport)
    | DecodeInput(message: Message)
    | HandleMessage(context: Context, input: I)
    | Publish(context: Context, output: O)

  /** What `consume` returned (`None` is null) or raised, and the calls it made */
  datatype Consumed<I, O> = Consumed(result: Result<Option<Bytes>, Throwable>, calls: seq<Call<I, O>>)

  /** The constructor `AbstractConsumer(queueName)` of a subclass implementing `handleMessage` */
  function NewConsumer<I, O>(queueName: Option<string>, handler: (Context, I) -> Result<O, Throwable>): (c: Consumer<I, O>)
    ensures c.GetQueueName() == queueName
    ensures c.handleMessage == handler
    ensures c.publisher.None?
  {
    Consumer(queueName, handler, None)
  }

  /** A subclass assigning the protected `publisher` field */
  function AttachPublisher<I, O>(c: Consumer<I, O>, port: Publishing.Port<O>): (c': Consumer<I, O>)
    ensures c'.GetQueueName() == c.GetQueueName()
    ensures c'.handleMessage == c.handleMessage
    ensures c'.publisher == Some(port)
  {
    c.(publisher := Some(port))
  }

  /** All four decoding steps succeed on `body` */
  predicate Decodes<I>(codec: ConsumerCodec<I>, body: Bytes)
  {
    && codec.readTransport(body).Success?
    && codec.contextFromTransport(codec.readTransport(body).value).Success?
    && codec.messageFromTransport(codec.readTransport(body).value).Success?
    && codec.decode(codec.messageFromTransport(codec.readTransport(body).value).value).Success?
  }

  /** `body` decodes to exactly this context and input */
  ghost predicate DecodesTo<I>(codec: ConsumerCodec<I>, body: Bytes, context: Context, input: I)
  {
    exists transport, message ::
      && codec.readTransport(body) == Success(transport)
      && codec.contextFromTransport(transport) == Success(context)
      && codec.messageFromTransport(transport) == Success(message)
      && codec.decode(message) == Success(input)
  }

  /** The context a decodable body yields */
  function DecodedContext<I>(codec: ConsumerCodec<I>, body: Bytes): Context
    requires Decodes(codec, body)
  {
    codec.contextFromTransport(codec.readTransport(body).value).value
  }

  /** The typed input a decodable body yields */
  function DecodedInput<I>(codec: ConsumerCodec<I>, body: Bytes): I
    requires Decodes(codec, body)
  {
    codec.decode(codec.messageFromTransport(codec.readTransport(body).value).value).value
  }

  /** `decodeTransport(body)`: the Transport, or DecodeTransportException wrapping the reader's exception */
  function DecodeTransport<I>(codec: ConsumerCodec<I>, body: Bytes): (r: Result<Transport, Throwable>)
    ensures r.Success? <==> codec.readTransport(body).Success?
    ensures r.Success? ==> codec.readTransport(body) == Success(r.value)
    ensures r.Failure? ==>
      && r.error == DecodeTransportError(codec.readTransport(body).error)
      && IsConsumerSide(r.error)
  {
    match codec.readTransport(body)
    case Failure(ex) => Failure(DecodeTransportError(ex))
    case Success(transport) => Success(transport)
  }

  /** `consume(body)` */
  function Consume<I, O>(c: Consumer<I, O>, codec: ConsumerCodec<I>, body: Bytes): (r: Consumed<I, O>)
    // the handler is called only as the fifth call, after the four decoding steps succeeded, on what they produced
    ensures forall k :: 0 <= k < |r.calls| && r.calls[k].HandleMessage? ==>
      && k == 4
      && r.calls[0].ReadTransport? && r.calls[1].DecodeContext? && r.calls[2].DecodeMessage? && r.calls[3].DecodeInput?
      && DecodesTo(codec, body, r.calls[k].context, r.calls[k].input)
    // and it is called whenever they succeed
    ensures Decodes(codec, body) ==>
      |r.calls| > 4 && r.calls[4] == HandleMessage(DecodedContext(codec, body), DecodedInput(codec, body))
    // the publisher is called only after the handler, with the decoded context and the handler's output
    ensures forall k :: 0 <= k < |r.calls| && r.calls[k].Publish? ==>
      && k == 5 && c.publisher.Some?
      && r.calls[4].HandleMessage?
      && r.calls[k].context == r.calls[4].context
      && c.handleMessage(r.calls[4].context, r.calls[4].input) == Success(r.calls[k].output)
    ensures |r.calls| <= 6
    // a body the Transport reader rejects raises DecodeTransportException wrapping the reader's exception
    ensures codec.readTransport(body).Failure? ==>
      && r.result == Failure(DecodeTransportError(codec.readTransport(body).error))
      && r.calls == [ReadTransport(body)]
    // later decoding failures propagate unchanged
    ensures !Decodes(codec, body) ==> r.result.Failure? && |r.calls| <= 4
    // each decoding step is called once, on what the previous one produced, and a failing step is the last call
    ensures codec.readTransport(body).Success? ==>
      var transport := codec.readTransport(body).value;
      var incoming := codec.messageFromTransport(transport);
      && |r.calls| >= 2 && r.calls[..2] == [ReadTransport(body), DecodeContext(transport)]
      && (codec.contextFromTransport(transport).Failure? ==> |r.calls| == 2)
      && (codec.contextFromTransport(transport).Success? ==>
            |r.calls| >= 3 && r.calls[2] == DecodeMessage(transport))
      && (codec.contextFromTransport(transport).Success? && incoming.Failure? ==> |r.calls| == 3)
      && (codec.contextFromTransport(transport).Success? && incoming.Success? ==>
            |r.calls| >= 4 && r.calls[3] == DecodeInput(incoming.value))
      && (codec.contextFromTransport(transport).Success? && incoming.Success? && codec.decode(incoming.value).Failure? ==>
            |r.calls| == 4)
    ensures codec.readTransport(body).Success? ==>
      var transport := codec.readTransport(body).value;
      && (codec.contextFromTransport(transport).Failure? ==>
            r.result == Failure(codec.contextFromTransport(transport).error))
      && (codec.contextFromTransport(transport).Success? && codec.messageFromTransport(transport).Failure? ==>
            r.result == Failure(codec.messageFromTransport(transport).error))
      && (codec.contextFromTransport(transport).Success? && codec.messageFromTransport(transport).Success?
          && codec.decode(codec.messageFromTransport(transport).value).Failure? ==>
            r.result == Failure(codec.decode(codec.messageFromTransport(transport).value).error))
    // once decoded: handler failures propagate unchanged, no publisher means null, a publisher's answer is returned as is
    ensures Decodes(codec, body) ==>
      var context := DecodedContext(codec, body);
      var handled := c.handleMessage(context, DecodedInput(codec, body));
      && (handled.Failure? ==> r.result == Failure(handled.error) && |r.calls| == 5)
      && (handled.Success? && c.publisher.None? ==> r.result == Success(None) && |r.calls| == 5)
      && (handled.Success? && c.publisher.Some? ==>
            && |r.calls| == 6
            && r.calls[5] == Publish(context, handled.value)
            && r.result == c.publisher.value.publish(Some(context), handled.value))
    // a consumer without a publisher never returns bytes
    ensures c.publisher.None? && r.result.Success? ==> r.result.value.None?
  {
    var read := [ReadTransport(body)];
    match DecodeTransport(codec, body)
    case Failure(ex) => Consumed(Failure(ex), read)
    case Success(transport) =>
      var contextRead := read + [DecodeContext(transport)];
      match codec.contextFromTransport(transport)
      case Failure(ex) => Consumed(Failure(ex), contextRead)
      case Success(context) =>
        var messageRead := contextRead + [DecodeMessage(transport)];
        match codec.messageFromTransport(transport)
        case Failure(ex) => Consumed(Failure(ex), messageRead)
        case Success(incoming) =>
          var inputRead := messageRead + [DecodeInput(incoming)];
          match codec.decode(incoming)
          case Failure(ex) => Consumed(Failure(ex), inputRead)
          case Success(input) =>
            var handled := inputRead + [HandleMessage(context, input)];
            match c.handleMessage(context, input)
            case Failure(ex) => Consumed(Failure(ex), handled)
            case Success(output) =>
              match c.publisher
              case None => Consumed(Success(None), handled)
              case Some(port) =>
                Consumed(port.publish(Some(context), output), handled + [Publish(context, output)])
  }

  /** What the spy records for one call: its arguments if it is a handler call */
  function Observed<I, O>(call: Call<I, O>): seq<(Context, I)>
  {
    if call.HandleMessage? then [(call.context, call.input)] else []
  }

  /** The (context, input) pairs the handler received, in call order: a spy on `handleMessage` */
  function HandlerCalls<I, O>(calls: seq<Call<I, O>>): (r: seq<(Context, I)>)
    ensures |r| <= |calls|
    ensures (forall k :: 0 <= k < |calls| ==> !calls[k].HandleMessage?) ==> r == []
  {
    if calls == [] then [] else Observed(calls[0]) + HandlerCalls(calls[1..])
  }

  /** The spy distributes over consecutive stretches of calls */
  lemma {:induction false} HandlerCallsAppend<I, O>(a: seq<Call<I, O>>, b: seq<Call<I, O>>)
    ensures HandlerCalls(a + b) == HandlerCalls(a) + HandlerCalls(b)
  {
    if a == [] {
      assert a + b == b;
    } else {
      var ab := a + b;
      assert ab[0] == a[0];
      assert ab[1..] == a[1..] + b;
      HandlerCallsAppend(a[1..], b);
      calc {
        HandlerCalls(ab);
        Observed(a[0]) + HandlerCalls(a[1..] + b);
        Observed(a[0]) + (HandlerCalls(a[1..]) + HandlerCalls(b));
        (Observed(a[0]) + HandlerCalls(a[1..])) + HandlerCalls(b);
        HandlerCalls(a) + HandlerCalls(b);
      }
    }
  }

  /**
   The handler is invoked exactly once, with the decoded context and input,
   when decoding succeeds, and never otherwise.
   */
  lemma HandlerInvokedOnceIffDecoded<I, O>(c: Consumer<I, O>, codec: ConsumerCodec<I>, body: Bytes)
    ensures Decodes(codec, body) ==>
      HandlerCalls(Consume(c, codec, body).calls) == [(DecodedContext(codec, body), DecodedInput(codec, body))]
    ensures !Decodes(codec, body) ==> HandlerCalls(Consume(c, codec, body).calls) == []
  {
    var calls := Consume(c, codec, body).calls;
    if Decodes(codec, body) {
      assert calls == calls[..4] + [calls[4]] + calls[5..];
      HandlerCallsAppend(calls[..4] + [calls[4]], calls[5..]);
      HandlerCallsAppend(calls[..4], [calls[4]]);
      assert forall k :: 0 <= k < |calls[..4]| ==> !calls[..4][k].HandleMessage?;
      assert forall k :: 0 <= k < |calls[5..]| ==> !calls[5..][k].HandleMessage?;
      assert HandlerCalls([calls[4]]) == Observed(calls[4]) by {
        assert [calls[4]][1..] == [];
      }
    }
  }

  /** Without a publisher the handler's output does not affect what `consume` returns: it is null */
  lemma TerminalConsumerIgnoresOutput<I, O>(
    h1: (Context, I) -> Result<O, Throwable>, h2: (Context, I) -> Result<O, Throwable>,
    queueName: Option<string>, codec: ConsumerCodec<I>, body: Bytes)
    requires Decodes(codec, body)
    requires h1(DecodedContext(codec, body), DecodedInput(codec, body)).Success?
    requires h2(DecodedContext(codec, body), DecodedInput(codec, body)).Success?
    ensures Consume(NewConsumer(queueName, h1), codec, body).result
         == Consume(NewConsumer(queueName, h2), codec, body).result
         == Success(None)
  {
  }

  /**
   `handleMessage` declares `throws HandleMessageException`, so besides
   unchecked (foreign) exceptions it may raise only that kind.
   */
  predicate DeclaredHandlerFailure(e: Throwable)
  {
    InstanceOf(e, HandleMessageException) || KindOf(e).None?
  }

  /**
   A handler that keeps to its throws clause makes `consume` fail with its own
   exception, never with a DecodeTransportException and never publisher-side.
   */
  lemma HandlerFailureStage<I, O>(c: Consumer<I, O>, codec: ConsumerCodec<I>, body: Bytes)
    requires Decodes(codec, body)
    requires c.handleMessage(DecodedContext(codec, body), DecodedInput(codec, body)).Failure?
    requires DeclaredHandlerFailure(c.handleMessage(DecodedContext(codec, body), DecodedInput(codec, body)).error)
    ensures Consume(c, codec, body).result == Failure(c.handleMessage(DecodedContext(codec, body), DecodedInput(codec, body)).error)
    ensures !IsPublisherSide(Consume(c, codec, body).result.error)
    ensures KindOf(Consume(c, codec, body).result.error) != Some(DecodeTransportException)
  {
  }
}
