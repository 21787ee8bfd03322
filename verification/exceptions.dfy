/**
 The Orizuru exception taxonomy raised by the consume and publish pipelines.

 The Java classes form a two-level hierarchy under one root: a consumer-side
 branch (transport decoding, message handling) and a publisher-side branch
 (payload encoding, transport encoding). An exception value is either one of
 these Orizuru kinds, carrying its cause, or a foreign exception raised by
 code outside this layer (Avro, java.io, the Java runtime).
 */
module Exceptions {
  import opened Wrappers

  /** The Orizuru exception classes, one constructor per class */
  datatype Kind =
    | OrizuruException
    | OrizuruConsumerException
    | DecodeTransportException
    | HandleMessageException
    | OrizuruPublisherException
    | EncodeMessageContentException
    | EncodeTransportException

  /** The direct superclass of each kind inside the Orizuru hierarchy */
  function Parent(k: Kind): Option<Kind>
  {
    match k
    case OrizuruException => None
    case OrizuruConsumerException => Some(OrizuruException)
    case OrizuruPublisherException => Some(OrizuruException)
    case DecodeTransportException => Some(OrizuruConsumerException)
    case HandleMessageException => Some(OrizuruConsumerException)
    case EncodeMessageContentException => Some(OrizuruPublisherException)
    case EncodeTransportException => Some(OrizuruPublisherException)
  }

  /** Distance from the root; strictly decreases along Parent */
  function Depth(k: Kind): nat
  {
    match k
    case OrizuruException => 0
    case OrizuruConsumerException => 1
    case OrizuruPublisherException => 1
    case _ => 2
  }

  /** Java's `instanceof`: k is ancestor or a subclass of it */
  predicate IsA(k: Kind, ancestor: Kind)
    decreases Depth(k)
  {
    k == ancestor || (Parent(k).Some? && IsA(Parent(k).value, ancestor))
  }

  /**
   A raised exception. `Wrapping` is an Orizuru exception built from a cause
   alone (its message text is chosen by a constructor outside this model);
   `Described` is one built with an explicit message and a possibly null cause.
   */
  datatype Throwable =
    | Foreign(className: string)
    | Wrapping(kind: Kind, wrapped: Throwable)
    | Described(kind: Kind, message: string, cause: Option<Throwable>)

  /** The Orizuru class of an exception, None for a foreign exception */
  function KindOf(t: Throwable): Option<Kind>
  {
    match t
    case Foreign(_) => None
    case Wrapping(k, _) => Some(k)
    case Described(k, _, _) => Some(k)
  }

  /** Java's `getCause()` */
  function CauseOf(t: Throwable): Option<Throwable>
  {
    match t
    case Foreign(_) => None
    case Wrapping(_, c) => Some(c)
    case Described(_, _, c) => c
  }

  /** `t instanceof k` */
  predicate InstanceOf(t: Throwable, k: Kind)
  {
    KindOf(t).Some? && IsA(KindOf(t).value, k)
  }

  /** A consumer-side failure: `t instanceof OrizuruConsumerException` */
  predicate IsConsumerSide(t: Throwable)
  {
    InstanceOf(t, OrizuruConsumerException)
  }

  /** A publisher-side failure: `t instanceof OrizuruPublisherException` */
  predicate IsPublisherSide(t: Throwable)
  {
    InstanceOf(t, OrizuruPublisherException)
  }

  /** The exception Java raises on a method call through a null reference */
  const NullPointer: Throwable := Foreign("java.lang.NullPointerException")

  /** The consumer and publisher branches share only the root */
  lemma BranchesDisjoint(k: Kind)
    ensures !(IsA(k, OrizuruConsumerException) && IsA(k, OrizuruPublisherException))
    ensures IsA(k, OrizuruException)
  {
  }

  // Constructors that wrap a caught exception as their cause.

  /** `new DecodeTransportException(ex)` */
  function DecodeTransportError(ex: Throwable): (t: Throwable)
    ensures IsConsumerSide(t) && !IsPublisherSide(t)
    ensures KindOf(t) == Some(DecodeTransportException) && CauseOf(t) == Some(ex)
  {
    Wrapping(DecodeTransportException, ex)
  }

  /** `new EncodeMessageContentException(ex)` */
  function EncodeMessageContentError(ex: Throwable): (t: Throwable)
    ensures IsPublisherSide(t) && !IsConsumerSide(t)
    ensures KindOf(t) == Some(EncodeMessageContentException) && CauseOf(t) == Some(ex)
  {
    Wrapping(EncodeMessageContentException, ex)
  }

  /** `new EncodeTransportException(ex)` */
  function EncodeTransportError(ex: Throwable): (t: Throwable)
    ensures IsPublisherSide(t) && !IsConsumerSide(t)
    ensures KindOf(t) == Some(EncodeTransportException) && CauseOf(t) == Some(ex)
  {
    Wrapping(EncodeTransportException, ex)
  }

  /** `new OrizuruPublisherException(ex)`: the plain publisher-side kind */
  function PublisherError(ex: Throwable): (t: Throwable)
    ensures IsPublisherSide(t) && !IsConsumerSide(t)
    ensures KindOf(t) == Some(OrizuruPublisherException) && CauseOf(t) == Some(ex)
  {
    Wrapping(OrizuruPublisherException, ex)
  }

  // HandleMessageException and its message text.

  const HandleMessageText := "Failed to handle message"
  const HandleMessageDetailPrefix := "Failed to handle message: "

  /** Java's `%s` conversion of a String argument: a null String prints as "null" */
  function FormatString(s: Option<string>): string
  {
    match s
    case None => "null"
    case Some(v) => v
  }

  /** `new HandleMessageException(cause)` */
  function NewHandleMessageError(cause: Option<Throwable>): (t: Throwable)
    ensures t.Described? && t.message == "Failed to handle message"
    ensures CauseOf(t) == cause
    ensures KindOf(t) == Some(HandleMessageException)
    ensures IsConsumerSide(t) && !IsPublisherSide(t)
  {
    Described(HandleMessageException, HandleMessageText, cause)
  }

  /** `new HandleMessageException(message, cause)` */
  function NewHandleMessageErrorWithText(message: Option<string>, cause: Option<Throwable>): (t: Throwable)
    ensures t.Described? && t.message == "Failed to handle message: " + FormatString(message)
    ensures CauseOf(t) == cause
    ensures KindOf(t) == Some(HandleMessageException)
    ensures IsConsumerSide(t) && !IsPublisherSide(t)
  {
    Described(HandleMessageException, HandleMessageDetailPrefix + FormatString(message), cause)
  }

  /**
   Recovers the caller-supplied text from a HandleMessageException message:
   the inverse of the two-argument constructor's formatting.
   */
  function HandleMessageDetail(message: string): Option<string>
  {
    var n := |HandleMessageDetailPrefix|;
    if n <= |message| && message[..n] == HandleMessageDetailPrefix then Some(message[n..]) else None
  }

  /** The supplied text can be read back from the two-argument constructor's message */
  lemma DetailRoundTrip(message: Option<string>, cause: Option<Throwable>)
    ensures HandleMessageDetail(NewHandleMessageErrorWithText(message, cause).message) == Some(FormatString(message))
  {
  }

  /** The single-argument constructor's message carries no supplied text */
  lemma NoDetailWithoutText(cause: Option<Throwable>)
    ensures HandleMessageDetail(NewHandleMessageError(cause).message) == None
  {
  }

  /** Distinct supplied texts give distinct messages */
  lemma DetailInjective(m1: Option<string>, m2: Option<string>, c1: Option<Throwable>, c2: Option<Throwable>)
    requires NewHandleMessageErrorWithText(m1, c1).message == NewHandleMessageErrorWithText(m2, c2).message
    ensures FormatString(m1) == FormatString(m2)
  {
    DetailRoundTrip(m1, c1);
    DetailRoundTrip(m2, c2);
  }
}
