/**
 The Orizuru Transport record and the two schema/buffer pairs it carries.

 The Transport is an Avro record with one fixed schema of four fields, in the
 order contextSchema (string), contextBuffer (bytes), messageSchema (string),
 messageBuffer (bytes). The context and the message are each a schema text
 paired with the bytes encoded against that schema.
 */
module Envelope {
  import opened Wrappers

  type Bytes = seq<bv8>

  /** The generated Avro class `Transport`, constructor arguments in field order */
  datatype Transport = Transport(
    contextSchema: string,
    contextBuffer: Bytes,
    messageSchema: string,
    messageBuffer: Bytes)

  /** `Context`: the schema text and data buffer of the correlation metadata */
  datatype Context = Context(schemaStr: string, dataBuffer: Bytes)

  /** `Message`: the schema text and data buffer of a business payload */
  datatype Message = Message(schemaStr: string, dataBuffer: Bytes)

  /** The Avro types a Transport field may hold */
  datatype AvroType = StringType | BytesType

  datatype FieldValue = AvroString(str: string) | AvroBytes(bytes: Bytes)

  datatype Field = Field(name: string, value: FieldValue)

  /** The declared type of a field value */
  function TypeOf(v: FieldValue): AvroType
  {
    match v
    case AvroString(_) => StringType
    case AvroBytes(_) => BytesType
  }

  /** The Transport schema: field names and types, in declaration order */
  const TransportSchema: seq<(string, AvroType)> := [
    ("contextSchema", StringType),
    ("contextBuffer", BytesType),
    ("messageSchema", StringType),
    ("messageBuffer", BytesType)]

  /** A field list matches a record schema: same length, and each field has the declared name and type */
  predicate Conforms(fs: seq<Field>, schema: seq<(string, AvroType)>)
  {
    |fs| == |schema| && forall i :: 0 <= i < |fs| ==> fs[i].name == schema[i].0 && TypeOf(fs[i].value) == schema[i].1
  }

  /** The record's fields in schema order, as a record writer visits them */
  function Fields(t: Transport): (fs: seq<Field>)
    ensures Conforms(fs, TransportSchema)
  {
    [ Field("contextSchema", AvroString(t.contextSchema)),
      Field("contextBuffer", AvroBytes(t.contextBuffer)),
      Field("messageSchema", AvroString(t.messageSchema)),
      Field("messageBuffer", AvroBytes(t.messageBuffer)) ]
  }

  /** Rebuilds a Transport from a field list, failing unless it conforms to the Transport schema */
  function FromFields(fs: seq<Field>): Option<Transport>
  {
    if Conforms(fs, TransportSchema)
    then Some(Transport(fs[0].value.str, fs[1].value.bytes, fs[2].value.str, fs[3].value.bytes))
    else None
  }

  /** Reading back the fields of a Transport gives the same Transport */
  lemma FieldsRoundTrip(t: Transport)
    ensures FromFields(Fields(t)) == Some(t)
  {
  }

  /**
   Every field list conforming to the Transport schema is the layout of
   exactly one Transport, and no other list is the layout of any Transport.
   */
  lemma FromFieldsExact(fs: seq<Field>)
    ensures FromFields(fs).Some? <==> Conforms(fs, TransportSchema)
    ensures FromFields(fs).Some? ==> Fields(FromFields(fs).value) == fs
  {
  }
}
