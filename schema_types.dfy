/** Schema-type names and the conversions between a cached record and
    Confluent's `Schema` value. */
module SchemaTypes {
  import opened Values
  import opened Text

  /** `SchemaType.ToString()`: the name of the enumeration member, which
      parses back to the member it names. */
  function SchemaTypeName(t: SchemaType): (name: string)
    ensures ParseSchemaType(name) == t
  {
    match t
    case Avro =>
      assert LowerInvariant("Avro") == "avro";
      "Avro"
    case Protobuf =>
      assert LowerInvariant("Protobuf") == "protobuf";
      "Protobuf"
    case Json =>
      assert LowerInvariant("Json") == "json";
      "Json"
  }

  /** `ParseSchemaType` (and `Enum.TryParse` with ignoreCase and an Avro
      fallback): a member name matched without regard to case, Avro for
      anything else, blank input included. */
  function ParseSchemaType(s: string): (t: SchemaType)
    ensures t == Protobuf <==> LowerInvariant(s) == "protobuf"
    ensures t == Json <==> LowerInvariant(s) == "json"
    ensures IsBlank(s) ==> t == Avro
  {
    if IsBlank(s) then
      // a blank string lower-cases to itself, which no member name is
      assert !IsWhiteSpace("protobuf"[0]) && !IsWhiteSpace("json"[0]);
      Avro
    else if LowerInvariant(s) == "avro" then Avro
    else if LowerInvariant(s) == "protobuf" then Protobuf
    else if LowerInvariant(s) == "json" then Json
    else Avro
  }

  /** The cases the source's parsing tests exercise (null is the empty string). */
  lemma ParseSchemaTypeExamples()
    ensures ParseSchemaType("AVRO") == Avro && ParseSchemaType("avro") == Avro
    ensures ParseSchemaType("PROTOBUF") == Protobuf && ParseSchemaType("protobuf") == Protobuf
    ensures ParseSchemaType("JSON") == Json
    ensures ParseSchemaType("") == Avro && ParseSchemaType("INVALID") == Avro
  {
    assert LowerInvariant("PROTOBUF") == "protobuf";
    assert LowerInvariant("protobuf") == "protobuf";
    assert LowerInvariant("JSON") == "json";
    assert LowerInvariant("INVALID") == "invalid";
  }

  /** The record cached under `id:<id>` for a schema fetched by id. */
  function IdEntryInfo(id: int, schema: Schema): (info: SchemaInfo)
    ensures info.id == Some(id) && info.schema == schema.text
    ensures info.subject.None? && info.role.None?
  {
    SchemaInfo(None, Some(id), schema.text, None, Some(SchemaTypeName(schema.schemaType)))
  }

  /** The `Schema` rebuilt from a cached record on a hit: its text and its
      type parsed from the stored name, "AVRO" when none is stored. */
  function SchemaOfInfo(info: SchemaInfo): (schema: Schema)
    ensures schema.text == info.schema
    ensures info.schemaType.None? ==> schema.schemaType == Avro
  {
    Schema(info.schema, ParseSchemaType(if info.schemaType.Some? then info.schemaType.value else "AVRO"))
  }

  /** A schema cached by id and read back from the cache is the schema the
      backend returned. */
  lemma {:induction false} IdEntryRoundTrip(id: int, schema: Schema)
    ensures SchemaOfInfo(IdEntryInfo(id, schema)) == schema
  {
  }
}
