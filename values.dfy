/** Value types shared by every component: the cached schema record, Confluent's
    schema and schema-type types, and the outcome of an operation that may throw. */
module Values {

  /** A nullable value: `None` stands for C#'s `null`. */
  datatype Option<+T> = None | Some(value: T)

  /** An unsigned 8-bit value, the element type of a wire message. */
  newtype byte = x: int | 0 <= x < 256

  /** Confluent's `SchemaType` enumeration. */
  datatype SchemaType = Avro | Protobuf | Json

  /** Confluent's `Schema`: the schema text (which the library does not forbid
      to be null) and its type. */
  datatype Schema = Schema(text: Option<string>, schemaType: SchemaType)

  /** `CachedSchemaInfo`: every property is nullable. `role` is the
      informational "key"/"value" tag (the `Type` property). */
  datatype SchemaInfo = SchemaInfo(
    subject: Option<string>,
    id: Option<int>,
    schema: Option<string>,
    role: Option<string>,
    schemaType: Option<string>)

  /** The exceptions the core throws or lets through. `Upstream` is whatever an
      external collaborator (backend registrar, token callback) throws. */
  datatype Error =
    | ArgumentNull
    | Argument
    | ArgumentOutOfRange
    | InvalidOperation
    | ObjectDisposed
    | Upstream

  /** The result of a call that either returns a value or throws. */
  datatype Outcome<+T> = Ok(value: T) | Fail(error: Error)

  /** The schema text a caller receives for a cache or registrar result
      (`cached?.Schema`): null for a negative result or a null text. */
  function SchemaText(info: Option<SchemaInfo>): (text: Option<string>)
    ensures text.Some? <==> info.Some? && info.value.schema.Some?
    ensures text.Some? ==> text.value == info.value.schema.value
  {
    if info.Some? then info.value.schema else None
  }
}
