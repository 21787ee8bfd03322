# Orizuru envelope dispatch, modelled in Dafny

Orizuru moves typed Avro payloads through a message queue inside a fixed
four-field envelope, the `Transport` record
`(contextSchema, contextBuffer, messageSchema, messageBuffer)`. This project
models the dispatch layer around that envelope:

- `AbstractConsumer.consume` decodes the Transport, extracts the `Context` and
  the typed input, calls the abstract `handleMessage` once, and then either
  returns null or hands `(context, output)` to its optional publisher;
- `AbstractPublisher.publish` encodes the payload against its own schema,
  copies the context's schema text and buffer unchanged, assembles the
  Transport and encodes it;
- the exception kinds these two pipelines raise, and the message text of
  `HandleMessageException`.

Everything is a pure function over immutable datatypes. The Avro reader and
writers, `Context.decodeFromTransport`, `Message.decodeFromTransport` and
`Message.decode` are opaque, possibly failing function values returning a
`Result` (held in `ConsumerCodec` and `PublisherCodec`). The handler and the
attached publisher are function values held in the `Consumer`. `Consume` and
`Publish` return their result together with the trace of calls they made, so
"the handler is never invoked" and "the Transport is not written" are
statements about that trace. A Java null is `None` in these places: the
publisher field, the queue names, the `Context` passed to `publish`, the value
an `IPublisher` returns, and the text and cause given to
`HandleMessageException`.

Files, one module each:

- `wrappers.dfy` (`Wrappers`): `Option` and `Result`.
- `exceptions.dfy` (`Exceptions`): the class hierarchy, the wrapping
  constructors and `HandleMessageException`.
- `envelope.dfy` (`Envelope`): `Transport`, `Context`, `Message`, the field layout.
- `publishing.dfy` (`Publishing`): `AbstractPublisher`.
- `consuming.dfy` (`Consuming`): `AbstractConsumer`.
- `dispatch.dfy` (`Dispatch`): a consumer whose publisher is an `AbstractPublisher`.

Two points about what the code does and does not do:

- `consume` has no try/catch. Only `decodeTransport` wraps its failure, as a
  `DecodeTransportException`. Exceptions from the context and message
  decoders, the handler and the publisher propagate unchanged
  (`Consuming.Consume`).
- No Avro encode/decode round trip is modelled, because the code implements
  no codec of its own. Only the Transport record's field layout is stated
  (`Envelope.Fields`, `Envelope.FromFieldsExact`). These are statements about
  the layout alone: the opaque Transport reader and writer are not tied to them.

## Model

| member | source | states |
|---|---|---|
| Exceptions.BranchesDisjoint | src/main/java/com/financialforce/orizuru/exception/consumer/handler/HandleMessageException.java:38 | every Orizuru kind is an OrizuruException, and none is both a consumer-side and a publisher-side kind |
| Exceptions.DecodeTransportError | src/main/java/com/financialforce/orizuru/AbstractConsumer.java:125-127 | the exception raised for an unreadable body is a consumer-side DecodeTransportException, never publisher-side, whose cause is the reader's exception |
| Exceptions.EncodeMessageContentError | src/main/java/com/financialforce/orizuru/AbstractPublisher.java:121-123 | a payload-encoding failure becomes a publisher-side EncodeMessageContentException whose cause is the original exception |
| Exceptions.EncodeTransportError | src/main/java/com/financialforce/orizuru/AbstractPublisher.java:143-145 | a Transport-encoding failure becomes a publisher-side EncodeTransportException whose cause is the original exception |
| Exceptions.PublisherError | src/main/java/com/financialforce/orizuru/AbstractPublisher.java:94-95 | any other exception in publish becomes a plain OrizuruPublisherException whose cause is that exception |
| Exceptions.NewHandleMessageError | src/main/java/com/financialforce/orizuru/exception/consumer/handler/HandleMessageException.java:42-44 | the one-argument constructor's message is exactly "Failed to handle message"; its cause is the argument, null included; it is consumer-side and not publisher-side |
| Exceptions.NewHandleMessageErrorWithText | src/main/java/com/financialforce/orizuru/exception/consumer/handler/HandleMessageException.java:46-48 | the two-argument constructor's message is "Failed to handle message: " followed by the text, with a null text printed as "null"; the cause is kept; it is consumer-side only |
| Exceptions.DetailRoundTrip | src/main/java/com/financialforce/orizuru/exception/consumer/handler/HandleMessageException.java:46-48 | the supplied text can be recovered from the two-argument constructor's message by stripping the prefix |
| Exceptions.NoDetailWithoutText | src/main/java/com/financialforce/orizuru/exception/consumer/handler/HandleMessageException.java:42-44 | the one-argument constructor's message carries no supplied text, so it never coincides with a two-argument message |
| Exceptions.DetailInjective | src/main/java/com/financialforce/orizuru/exception/consumer/handler/HandleMessageException.java:46-48 | two-argument exceptions with the same message were given texts that format the same under `%s`; a null text and the text "null" coincide |
| Envelope.Fields | src/main/java/com/financialforce/orizuru/AbstractPublisher.java:60-65 | every Transport's field list conforms to the Transport schema: contextSchema (string), contextBuffer (bytes), messageSchema (string), messageBuffer (bytes), in that order |
| Envelope.FieldsRoundTrip | src/main/java/com/financialforce/orizuru/AbstractConsumer.java:57-62 | reading a Transport's fields back against the schema layout gives the same Transport, so no two Transports share a layout |
| Envelope.FromFieldsExact | src/main/java/com/financialforce/orizuru/AbstractConsumer.java:57-62 | a field list is read as a Transport exactly when it conforms to the Transport schema, and it is then exactly that Transport's layout |
| Publishing.NewPublisher | src/main/java/com/financialforce/orizuru/AbstractPublisher.java:74-76 | getQueueName of a new publisher returns the string given to the constructor |
| Publishing.EncodeMessage | src/main/java/com/financialforce/orizuru/AbstractPublisher.java:107-125 | succeeds exactly when the payload's schema is available and the writer accepts the payload; the Message holds the payload's own schema and the bytes written against it; any failure is an EncodeMessageContentException around the first failing call's exception; no Transport is written |
| Publishing.WriteTransportBytes | src/main/java/com/financialforce/orizuru/AbstractPublisher.java:127-147 | writes exactly one Transport, whose fields are the four arguments in order; returns the writer's bytes or raises an EncodeTransportException around the writer's exception |
| Publishing.Rethrow | src/main/java/com/financialforce/orizuru/AbstractPublisher.java:92-96 | a publisher-side exception, of any subclass, is rethrown as it is; any other is wrapped in a plain OrizuruPublisherException; the result is always publisher-side |
| Publishing.Publish | src/main/java/com/financialforce/orizuru/AbstractPublisher.java:78-98 | succeeds exactly when the payload encodes, the context is non-null and the writer accepts the carried Transport, and then returns the writer's full output. That Transport holds the context's schema and buffer verbatim and the payload encoded against its own schema; it is written once, last, after the payload is encoded. Otherwise it raises a publisher-side exception: the EncodeMessageContentException of encodeMessage, with the failing call's exception as cause; an OrizuruPublisherException around a NullPointerException for a null context; or an EncodeTransportException around the writer's exception |
| Publishing.AsPort | src/main/java/com/financialforce/orizuru/AbstractPublisher.java:78 | the publisher seen as an IPublisher succeeds exactly when publish does, returns publish's bytes (never null) or raises publish's exception, and keeps its queue name |
| Consuming.NewConsumer | src/main/java/com/financialforce/orizuru/AbstractConsumer.java:71-77 | getQueueName of a new consumer returns the string given to the constructor, and the publisher field starts null |
| Consuming.AttachPublisher | src/main/java/com/financialforce/orizuru/AbstractConsumer.java:71 | setting the publisher field changes neither the queue name nor the handler |
| Consuming.DecodeTransport | src/main/java/com/financialforce/orizuru/AbstractConsumer.java:117-129 | returns the reader's Transport when it reads the body, otherwise a consumer-side DecodeTransportException wrapping the reader's exception |
| Consuming.Consume | src/main/java/com/financialforce/orizuru/AbstractConsumer.java:83-106 | each decoding step is called once, on what the previous step produced, and a failing step is the last call. The handler is called only as the fifth call, after all four decoding steps succeed, on what they decoded, and whenever they succeed. A rejected body raises DecodeTransportException and makes no further call. Other decoding, handler and publisher exceptions propagate unchanged. With no publisher the result is null whatever the handler returns. With one, the result is exactly what publisher.publish(context, output) returns or raises, null included, called once after the handler |
| Consuming.HandlerInvokedOnceIffDecoded | src/main/java/com/financialforce/orizuru/AbstractConsumer.java:86-97 | a spy on the handler sees exactly one call, with the decoded context and input, when decoding succeeds, and no call otherwise |
| Consuming.TerminalConsumerIgnoresOutput | src/main/java/com/financialforce/orizuru/AbstractConsumer.java:100-104 | a consumer without a publisher returns the same result, null, for any two successful handlers |
| Consuming.HandlerFailureStage | src/main/java/com/financialforce/orizuru/AbstractConsumer.java:108 | a handler that keeps to its `throws HandleMessageException` clause makes consume fail with the handler's own exception, which is never a DecodeTransportException and never publisher-side |
| Dispatch.RelayCarriesContext | src/main/java/com/financialforce/orizuru/AbstractConsumer.java:97-101 | with an AbstractPublisher attached, consume succeeds exactly when the handler's output encodes and the writer accepts the Transport carrying the decoded context verbatim and that encoded output; it then returns the writer's bytes |
| Dispatch.RelayFailureStage | src/main/java/com/financialforce/orizuru/AbstractPublisher.java:80-96 | once decoding and handling succeed, any failure of a consumer relaying through an AbstractPublisher is publisher-side |

## Left out

- The Avro binary codec (`SpecificDatumReader`, `SpecificDatumWriter`, the encoder and decoder factories). It is a foreign library. Each use is an opaque function that returns a value or an exception, and no encode/decode round trip is claimed.
- `Context.decodeFromTransport`, `Message.decodeFromTransport` and `Message.decode` are not part of this model. They are opaque, possibly failing steps, and nothing is claimed about the exception classes they raise.
- `Context.getSchemaStr`, `Context.getDataBuffer`, `Message.getSchemaStr`, `Message.getDataBuffer` and the `Message(schema, bytes)` constructor are not part of this model. A non-null object is assumed to return its stored schema text and buffer without raising, and a Message is assumed to keep its schema's text.
- The messages of `DecodeTransportException`, `EncodeMessageContentException`, `EncodeTransportException` and `OrizuruPublisherException` are set by constructors that are not part of this model. Those exceptions carry only their kind and cause. The superclasses' own constructors are likewise not modelled.
- Java `Error`s, which the `catch (Exception ex)` clauses do not catch, are not distinguished. Every failure of an opaque call is treated as a caught `Exception`.
- `ByteBuffer` position and limit mechanics and `ByteArrayOutputStream`. Buffers are byte sequences and schemas are their text.
- The static Transport schema field and the Transport writer's class argument. The fixed schema is implicit in the reader and writer functions.
- The RabbitMQ transport, the meaning of queue names, delivery, acknowledgement and retry.
- Concurrency. Each call is independent and stateless.
- Java generic bounds (`extends GenericContainer`). These are Dafny type parameters, and the payload's `getSchema()` is an opaque function.
- Consuming.Consume: the handler may raise any exception, although `handleMessage` declares `throws HandleMessageException`. Java's checked-exception rule is stated separately as `DeclaredHandlerFailure` and assumed only by `Consuming.HandlerFailureStage`.
- Consuming.Consume: the handler is assumed not to mutate the `Context` it receives. In Java the same mutable object goes first to `handleMessage` and then to `publisher.publish`, so a handler that changes it changes what gets published.
- Consuming.Consume: the handler is assumed not to assign the protected `publisher` field. Java reads that field only after `handleMessage` returns, so a handler that sets it makes a terminal consumer publish, and one that clears it makes `consume` return null. `Consuming.TerminalConsumerIgnoresOutput` and the "no publisher means null" clause rest on this assumption.
- Dispatch.RelayCarriesContext: "carries the decoded context verbatim" holds only under that same assumption, that the handler does not mutate the `Context`.
- A null `body` passed to `consume` is not modelled. Bodies are byte sequences; in Java the decoder factory's NullPointerException would be wrapped as a `DecodeTransportException`.
