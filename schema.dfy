/** The registry's data model: the literal enumerations for data formats,
    compatibility modes and statuses, the `SchemaVersion` record, and the
    `Schema` interface that Avro and JSON Schema implementations fulfil. */
module SchemaModel {
  import opened Wrappers
  import opened Uuids

  /** `DataFormat`: the payload encodings the registry knows. */
  datatype DataFormat = Avro | Json

  function DataFormatName(f: DataFormat): string {
    match f
    case Avro => "AVRO"
    case Json => "JSON"
  }

  /** The literal, if any, that a registry string stands for. */
  function ParseDataFormat(s: string): (r: Option<DataFormat>)
    ensures r.Some? ==> DataFormatName(r.value) == s
  {
    if s == "AVRO" then Some(Avro)
    else if s == "JSON" then Some(Json)
    else None
  }

  /** The literal type admits exactly the strings "AVRO" and "JSON", and the
      names are a faithful encoding of the enumeration. */
  lemma DataFormatLiterals(s: string, f: DataFormat)
    ensures ParseDataFormat(s).Some? <==> s in {"AVRO", "JSON"}
    ensures ParseDataFormat(DataFormatName(f)) == Some(f)
  {
  }

  /** `CompatibilityMode`: the checks the registry runs on a new version
      (`NoCheck` is the literal "NONE"). */
  datatype CompatibilityMode =
    | NoCheck | Disabled | Backward | BackwardAll | Forward | ForwardAll | Full | FullAll

  function CompatibilityModeName(m: CompatibilityMode): string {
    match m
    case NoCheck => "NONE"
    case Disabled => "DISABLED"
    case Backward => "BACKWARD"
    case BackwardAll => "BACKWARD_ALL"
    case Forward => "FORWARD"
    case ForwardAll => "FORWARD_ALL"
    case Full => "FULL"
    case FullAll => "FULL_ALL"
  }

  const COMPATIBILITY_MODE_NAMES: set<string> :=
    {"NONE", "DISABLED", "BACKWARD", "BACKWARD_ALL", "FORWARD", "FORWARD_ALL", "FULL", "FULL_ALL"}

  function ParseCompatibilityMode(s: string): (r: Option<CompatibilityMode>)
    ensures r.Some? ==> CompatibilityModeName(r.value) == s
  {
    if s == "NONE" then Some(NoCheck)
    else if s == "DISABLED" then Some(Disabled)
    else if s == "BACKWARD" then Some(Backward)
    else if s == "BACKWARD_ALL" then Some(BackwardAll)
    else if s == "FORWARD" then Some(Forward)
    else if s == "FORWARD_ALL" then Some(ForwardAll)
    else if s == "FULL" then Some(Full)
    else if s == "FULL_ALL" then Some(FullAll)
    else None
  }

  /** Exactly the eight listed strings are compatibility modes, and every
      mode is named by one of them. */
  lemma CompatibilityModeLiterals(s: string, m: CompatibilityMode)
    ensures ParseCompatibilityMode(s).Some? <==> s in COMPATIBILITY_MODE_NAMES
    ensures ParseCompatibilityMode(CompatibilityModeName(m)) == Some(m)
    ensures |COMPATIBILITY_MODE_NAMES| == 8
  {
  }

  /** `SchemaVersionStatus`: the states a schema version can be in. */
  datatype SchemaVersionStatus = Available | Pending | Failure | Deleting

  /** `SchemaStatus`: the same states without `FAILURE`. */
  type SchemaStatus = s: SchemaVersionStatus | !s.Failure? witness Available

  function StatusName(s: SchemaVersionStatus): string {
    match s
    case Available => "AVAILABLE"
    case Pending => "PENDING"
    case Failure => "FAILURE"
    case Deleting => "DELETING"
  }

  function ParseStatus(s: string): (r: Option<SchemaVersionStatus>)
    ensures r.Some? ==> StatusName(r.value) == s
  {
    if s == "AVAILABLE" then Some(Available)
    else if s == "PENDING" then Some(Pending)
    else if s == "FAILURE" then Some(Failure)
    else if s == "DELETING" then Some(Deleting)
    else None
  }

  lemma StatusLiterals(s: string, v: SchemaVersionStatus)
    ensures ParseStatus(s).Some? <==> s in {"AVAILABLE", "PENDING", "FAILURE", "DELETING"}
    ensures ParseStatus(StatusName(v)) == Some(v)
    ensures !v.Failure? <==> StatusName(v) in {"AVAILABLE", "PENDING", "DELETING"}
  {
  }

  const AVAILABLE: string := "AVAILABLE"

  /** One version of a schema as the client returns it. The registry's
      strings for the data format and the status are kept as received:
      Python does not check the literal types at run time. */
  datatype SchemaVersion = SchemaVersion(
    schemaName: string,
    versionId: Uuid,
    definition: string,
    dataFormat: string,
    status: string,
    versionNumber: Option<int>)

  /** The dataclass constructor with `version_number` left at its default. */
  function NewSchemaVersion(schemaName: string, versionId: Uuid, definition: string,
                            dataFormat: string, status: string): (v: SchemaVersion)
    ensures v.versionNumber == None
    ensures v.schemaName == schemaName && v.versionId == versionId && v.definition == definition
    ensures v.dataFormat == dataFormat && v.status == status
  {
    SchemaVersion(schemaName, versionId, definition, dataFormat, status, None)
  }

  /** What `SchemaVersion.__hash__` feeds to `hash`: the definition alone.
      Equality is the dataclass's field-by-field equality, which is the
      datatype's own. */
  function HashKey(v: SchemaVersion): string {
    v.definition
  }

  /** Hashing is consistent with equality: equal versions hash alike, while
      versions that differ only in id collide in the hash yet stay unequal
      (so a hash table still tells them apart). */
  lemma HashRespectsEquality(v: SchemaVersion, w: SchemaVersion)
    ensures v == w ==> HashKey(v) == HashKey(w)
    ensures (v.versionId != w.versionId && v.definition == w.definition)
      ==> (HashKey(v) == HashKey(w) && v != w)
  {
  }

  /** A `Schema` object: its data format, its fully-qualified name (`None`
      when the implementation has no `fqn` attribute, as `AvroSchema` has
      none) and the definition it was built from, which stands for its
      string form `str(schema)`. Two model schemas are equal when these
      agree: for `JsonSchema` that is finer than Python's `==`, which
      compares parsed documents, and for `AvroSchema` coarser, since Python
      compares those by identity. `read` and `write` are supplied
      separately, see `Payloads`. */
  datatype Schema = Schema(dataFormat: DataFormat, fqn: Option<string>, text: string)

  /** `AvroSchema(definition)`: keeps the definition string and has no
      `fqn`. Python's `str` of one is the default object representation;
      the core never reads it, since `serialize` fails at `fqn` first. */
  function AvroSchema(definition: string): (s: Schema)
    ensures s.dataFormat == Avro && s.fqn == None && s.text == definition
  {
    Schema(Avro, None, definition)
  }

  /** `JsonSchema(definition)`: its `fqn` is always the empty string, and
      the definition stands for its string form, which Python computes by
      re-serialising the parsed document. */
  function JsonSchema(definition: string): (s: Schema)
    ensures s.dataFormat == Json && s.fqn == Some("") && s.text == definition
  {
    Schema(Json, Some(""), definition)
  }

  /** `write` and `read` of the schema implementations, which wrap foreign
      encoders; a failure (a validation error, say) is an `Err`. */
  datatype Payloads<!D> = Payloads(
    write: (Schema, D) -> Result<Bytes, string>,
    read: (Schema, Bytes) -> Result<D, string>)
}
