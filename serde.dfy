/** The Kafka serializer and deserializer: thin compositions of the codec,
    the registry client and the schema implementations, each with memo
    tables (Python's `functools.lru_cache`) that spare repeated registry
    calls. The registry's answer to a call, if one is made, is an input;
    ghost logs record the calls actually made. */
module Serde {
  import opened Wrappers
  import opened Uuids
  import opened Strings
  import opened SchemaModel
  import opened Codec
  import opened Client

  /** `DataAndSchema`: a value and the schema to write it with. */
  datatype DataAndSchema<D> = DataAndSchema(data: D, schema: Schema)

  /** The argument of `serialize`: `None`, a (data, schema) pair, or
      something that is not a tuple. */
  datatype SerializerInput<D> = NoValue | Value(pair: DataAndSchema<D>) | NotATuple

  /** What `serialize` and `deserialize` raise. */
  datatype SerdeError =
    | TypeError                          // serialize's argument is not a tuple
    | AttributeError(attribute: string)  // `schema.fqn` missing, or `read` on `None`
    | Registry(clientError: ClientError)
    | Decoding(decodeError: DecodeError)
    | PayloadError(message: string)      // raised by the schema's read or write

  /** `schema.fqn.split(".")[-1]`: the schema name the serializer registers
      under, the last dot-separated part of the fqn (a suffix of it without
      dots); `None` when the schema has no `fqn`. */
  function SerializerSchemaName(schema: Schema): (name: Option<string>)
    ensures name.Some? <==> schema.fqn.Some?
    ensures name.Some? ==>
      var fqn := schema.fqn.value;
      && '.' !in name.value
      && |name.value| <= |fqn| && name.value == fqn[|fqn| - |name.value|..]
      && (|name.value| < |fqn| ==> fqn[|fqn| - |name.value| - 1] == '.')
  {
    match schema.fqn
    case None => None
    case Some(fqn) => Some(LastSegment(fqn, '.'))
  }

  /** A `JsonSchema`'s `fqn` is the empty string, so the serializer
      registers every JSON schema under the empty name. */
  lemma JsonSchemaRegistersUnderEmptyName(definition: string)
    ensures SerializerSchemaName(JsonSchema(definition)) == Some("")
  {
  }

  /** The key of the serializer's memo table: the schema and its name. */
  type SerializerKey = (Schema, string)

  /** One `get_schema_by_definition` call the serializer made. */
  datatype Lookup = Lookup(request: GlueRequest, key: SerializerKey, succeeded: bool)

  /** No key is looked up again once a lookup for it has succeeded. */
  ghost predicate NoLookupAfterSuccess(log: seq<Lookup>) {
    forall i, j :: 0 <= i < j < |log| && log[i].key == log[j].key ==> !log[i].succeeded
  }
  /** The keys whose lookup succeeded. */
  ghost function LookedUp(log: seq<Lookup>): set<SerializerKey> {
    set i | 0 <= i < |log| && log[i].succeeded :: log[i].key
  }

  /** One more lookup adds its key exactly when it succeeded. */
  lemma LookedUpAppend(log: seq<Lookup>, call: Lookup)
    ensures LookedUp(log + [call]) == LookedUp(log) + (if call.succeeded then {call.key} else {})
  {
    var log' := log + [call];
    forall k | k in LookedUp(log') ensures k in LookedUp(log) || (call.succeeded && k == call.key) {
      var i :| 0 <= i < |log'| && log'[i].succeeded && log'[i].key == k;
      if i < |log| {
        assert log[i] == log'[i];
      }
    }
    forall k | k in LookedUp(log) ensures k in LookedUp(log') {
      var i :| 0 <= i < |log| && log[i].succeeded && log[i].key == k;
      assert log'[i] == log[i];
    }
    if call.succeeded {
      assert log'[|log|] == call;
    }
  }


  /** What `_get_schema_version` gives for a key: the remembered version,
      or else the registry's answer to a lookup by definition. */
  function Resolved(versions: map<SerializerKey, SchemaVersion>, key: SerializerKey,
                    reply: GlueReply): Result<SchemaVersion, ClientError> {
    if key in versions then Ok(versions[key]) else GetSchemaByDefinition(key.0.text, reply)
  }

  /** What `serialize` returns or raises, given the memo table before the
      call and the registry's reply should it be asked. */
  function SerializeOutcome<D>(payloads: Payloads<D>, z: Zlib, versions: map<SerializerKey, SchemaVersion>,
                               input: SerializerInput<D>, reply: GlueReply): Result<Option<Bytes>, SerdeError> {
    match input
    case NoValue => Ok(None)
    case NotATuple => Err(TypeError)
    case Value(DataAndSchema(data, schema)) =>
      match SerializerSchemaName(schema)
      case None => Err(AttributeError("fqn"))
      case Some(name) =>
        match Resolved(versions, (schema, name), reply)
        case Err(e) => Err(Registry(e))
        case Ok(version) =>
          match payloads.write(schema, data)
          case Err(m) => Err(PayloadError(m))
          case Ok(bytes) => Ok(Some(Envelope(bytes, version.versionId, false, z)))
  }

  /** `KafkaSerializer`. */
  class KafkaSerializer<D> {
    const client: SchemaRegistryClient
    const payloads: Payloads<D>
    /** The `zlib` module; `serialize` never compresses. */
    const zlib: Zlib
    /** The memo table of `_get_schema_version`. */
    var versions: map<SerializerKey, SchemaVersion>
    /** Every `get_schema_by_definition` call made so far. */
    ghost var lookups: seq<Lookup>

    /** The table holds exactly the keys whose lookup succeeded, and no key
        is looked up again after that. */
    ghost predicate Valid()
      reads this
    {
      && NoLookupAfterSuccess(lookups)
      && versions.Keys == LookedUp(lookups)
    }

    constructor (client: SchemaRegistryClient, payloads: Payloads<D>, zlib: Zlib)
      ensures Valid()
      ensures this.client == client && this.payloads == payloads && this.zlib == zlib
      ensures versions == map[] && lookups == []
    {
      this.client := client;
      this.payloads := payloads;
      this.zlib := zlib;
      versions := map[];
      lookups := [];
    }

    /** `_get_schema_version(schema, schema_name)`: the memoized lookup by
        definition. A hit makes no call; a miss asks the registry for the
        schema's string form under `schemaName`, and remembers the answer
        only when it is a version. */
    method GetSchemaVersion(schema: Schema, schemaName: string, reply: GlueReply)
      returns (r: Result<SchemaVersion, ClientError>)
      requires Valid()
      modifies this`versions, this`lookups
      ensures Valid()
      ensures (schema, schemaName) in old(versions) ==>
        && r == Ok(old(versions)[(schema, schemaName)])
        && versions == old(versions) && lookups == old(lookups)
      ensures (schema, schemaName) !in old(versions) ==>
        && r == GetSchemaByDefinition(schema.text, reply)
        && lookups == old(lookups)
             + [Lookup(ByDefinitionRequest(client, schema.text, schemaName), (schema, schemaName), r.Ok?)]
        && versions == if r.Ok? then old(versions)[(schema, schemaName) := r.value] else old(versions)
    {
      var key := (schema, schemaName);
      if key in versions {
        return Ok(versions[key]);
      }
      r := GetSchemaByDefinition(schema.text, reply);
      ghost var call := Lookup(ByDefinitionRequest(client, schema.text, schemaName), key, r.Ok?);
      lookups := lookups + [call];
      if r.Ok? {
        versions := versions[key := r.value];
      }
      LookedUpAppend(old(lookups), call);
    }

    /** `serialize(data_and_schema)`: `None` passes through, a non-tuple is
        a `TypeError`; otherwise the schema name is taken from `fqn`, the
        version is looked up (memoized), the data written, and the result
        enveloped without compression. */
    method Serialize(input: SerializerInput<D>, reply: GlueReply) returns (r: Result<Option<Bytes>, SerdeError>)
      requires Valid()
      modifies this`versions, this`lookups
      ensures Valid()
      ensures r == SerializeOutcome(payloads, zlib, old(versions), input, reply)
      ensures (input.Value? && SerializerSchemaName(input.pair.schema).Some?) ==>
        var schema := input.pair.schema;
        var key := (schema, SerializerSchemaName(schema).value);
        var found := Resolved(old(versions), key, reply);
        && (key in old(versions) ==> versions == old(versions) && lookups == old(lookups))
        && (key !in old(versions) ==>
              && lookups == old(lookups) + [Lookup(ByDefinitionRequest(client, schema.text, key.1), key, found.Ok?)]
              && versions == if found.Ok? then old(versions)[key := found.value] else old(versions))
      ensures !(input.Value? && SerializerSchemaName(input.pair.schema).Some?) ==>
        versions == old(versions) && lookups == old(lookups)
    {
      match input {
        case NoValue => return Ok(None);
        case NotATuple => return Err(TypeError);
        case Value(pair) =>
          var schema := pair.schema;
          var name := SerializerSchemaName(schema);
          if name.None? {
            return Err(AttributeError("fqn"));
          }
          var found := GetSchemaVersion(schema, name.value, reply);
          if found.Err? {
            return Err(Registry(found.error));
          }
          var written := payloads.write(schema, pair.data);
          if written.Err? {
            return Err(PayloadError(written.error));
          }
          var encoded := Encode(written.value, found.value.versionId, false, zlib);
          r := Ok(Some(encoded));
      }
    }
  }

  /** Two serializations of the same value in a row. The call log only
      grows; once the first has succeeded, the second writes the same
      envelope and the two together made only the first call's lookup of the
      schema's key, none at all when the key was already remembered. */
  method SerializeTwice<D>(serializer: KafkaSerializer<D>, pair: DataAndSchema<D>, reply1: GlueReply, reply2: GlueReply)
    returns (first: Result<Option<Bytes>, SerdeError>, second: Result<Option<Bytes>, SerdeError>)
    requires serializer.Valid()
    modifies serializer
    ensures serializer.Valid()
    ensures old(serializer.lookups) <= serializer.lookups
    ensures first.Ok? ==> second == first
    ensures first.Ok? ==>
      && SerializerSchemaName(pair.schema).Some?
      && (var key := (pair.schema, SerializerSchemaName(pair.schema).value);
          serializer.lookups == old(serializer.lookups)
            + if key in old(serializer.versions) then []
              else [Lookup(ByDefinitionRequest(serializer.client, pair.schema.text, key.1), key, true)])
  {
    first := serializer.Serialize(Value(pair), reply1);
    second := serializer.Serialize(Value(pair), reply2);
  }


  /** `_schema_for_version`: the schema implementation for a version's
      data format, built from its definition; `None` for a format the
      serde does not know. A schema exists exactly for the two data format
      literals, and has that format and the version's definition. */
  function SchemaForVersion(version: SchemaVersion): (s: Option<Schema>)
    ensures s.Some? <==> ParseDataFormat(version.dataFormat).Some?
    ensures s.Some? ==>
      && DataFormatName(s.value.dataFormat) == version.dataFormat
      && s.value.text == version.definition
      && s.value.fqn == (if s.value.dataFormat == Avro then None else Some(""))
  {
    if version.dataFormat == "AVRO" then Some(AvroSchema(version.definition))
    else if version.dataFormat == "JSON" then Some(JsonSchema(version.definition))
    else None
  }

  /** One `get_schema_version` call the deserializer made. */
  datatype Fetch = Fetch(request: GlueRequest, versionId: Uuid, succeeded: bool)

  /** No version id is fetched again once a fetch for it has succeeded. */
  ghost predicate NoFetchAfterSuccess(log: seq<Fetch>) {
    forall i, j :: 0 <= i < j < |log| && log[i].versionId == log[j].versionId ==> !log[i].succeeded
  }
  /** The version ids whose fetch succeeded. */
  ghost function FetchedIds(log: seq<Fetch>): set<Uuid> {
    set i | 0 <= i < |log| && log[i].succeeded :: log[i].versionId
  }

  /** One more fetch adds its id exactly when it succeeded. */
  lemma FetchedIdsAppend(log: seq<Fetch>, call: Fetch)
    ensures FetchedIds(log + [call]) == FetchedIds(log) + (if call.succeeded then {call.versionId} else {})
  {
    var log' := log + [call];
    forall k | k in FetchedIds(log') ensures k in FetchedIds(log) || (call.succeeded && k == call.versionId) {
      var i :| 0 <= i < |log'| && log'[i].succeeded && log'[i].versionId == k;
      if i < |log| {
        assert log[i] == log'[i];
      }
    }
    forall k | k in FetchedIds(log) ensures k in FetchedIds(log') {
      var i :| 0 <= i < |log| && log[i].succeeded && log[i].versionId == k;
      assert log'[i] == log[i];
    }
    if call.succeeded {
      assert log'[|log|] == call;
    }
  }


  /** What the deserializer's `_get_schema_version` gives for an id: the
      remembered version, or else the registry's answer to a lookup by id. */
  function Fetched(versions: map<Uuid, SchemaVersion>, id: Uuid, reply: GlueReply): Result<SchemaVersion, ClientError> {
    if id in versions then Ok(versions[id]) else Client.GetSchemaVersion(reply)
  }

  /** What `deserialize` returns or raises, given the version memo table
      before the call and the registry's reply should it be asked. */
  function DeserializeOutcome<D>(payloads: Payloads<D>, z: Zlib, versions: map<Uuid, SchemaVersion>,
                                 input: Option<Bytes>, reply: GlueReply): Result<Option<(D, Schema)>, SerdeError> {
    match input
    case None => Ok(None)
    case Some(bytes) =>
      match Decoded(bytes, z)
      case Err(e) => Err(Decoding(e))
      case Ok((data, id)) =>
        match Fetched(versions, id, reply)
        case Err(e) => Err(Registry(e))
        case Ok(version) =>
          match SchemaForVersion(version)
          case None => Err(AttributeError("read"))
          case Some(schema) =>
            match payloads.read(schema, data)
            case Err(m) => Err(PayloadError(m))
            case Ok(value) => Ok(Some((value, schema)))
  }

  /** `KafkaDeserializer`. */
  class KafkaDeserializer<D> {
    const client: SchemaRegistryClient
    /** Stored by the constructor and never consulted again. */
    const returnRecordName: bool
    const payloads: Payloads<D>
    /** The `zlib` module, for compressed envelopes. */
    const zlib: Zlib
    /** The memo table of `_get_schema_version`. */
    var versions: map<Uuid, SchemaVersion>
    /** The memo table of `_schema_for_version`, `None` results included. */
    var schemas: map<SchemaVersion, Option<Schema>>
    /** Every `get_schema_version` call made so far. */
    ghost var fetches: seq<Fetch>

    ghost predicate Valid()
      reads this
    {
      && NoFetchAfterSuccess(fetches)
      && versions.Keys == FetchedIds(fetches)
      && forall v :: v in schemas ==> schemas[v] == SchemaForVersion(v)
    }

    constructor (client: SchemaRegistryClient, payloads: Payloads<D>, zlib: Zlib, returnRecordName: bool)
      ensures Valid()
      ensures this.client == client && this.payloads == payloads && this.zlib == zlib
      ensures this.returnRecordName == returnRecordName
      ensures versions == map[] && schemas == map[] && fetches == []
    {
      this.client := client;
      this.payloads := payloads;
      this.zlib := zlib;
      this.returnRecordName := returnRecordName;
      versions := map[];
      schemas := map[];
      fetches := [];
    }

    /** `_get_schema_version(version_id)`: the memoized lookup by id. */
    method GetSchemaVersion(versionId: Uuid, reply: GlueReply) returns (r: Result<SchemaVersion, ClientError>)
      requires Valid()
      modifies this`versions, this`fetches
      ensures Valid()
      ensures versionId in old(versions) ==>
        && r == Ok(old(versions)[versionId])
        && versions == old(versions) && fetches == old(fetches)
      ensures versionId !in old(versions) ==>
        && r == Client.GetSchemaVersion(reply)
        && fetches == old(fetches) + [Fetch(SchemaVersionRequest(versionId), versionId, r.Ok?)]
        && versions == if r.Ok? then old(versions)[versionId := r.value] else old(versions)
    {
      if versionId in versions {
        return Ok(versions[versionId]);
      }
      r := Client.GetSchemaVersion(reply);
      ghost var call := Fetch(SchemaVersionRequest(versionId), versionId, r.Ok?);
      FetchedIdsAppend(fetches, call);
      fetches := fetches + [call];
      if r.Ok? {
        versions := versions[versionId := r.value];
      }
    }

    /** `_schema_for_version(version)`, memoized: the implementation for the
        version's format, remembered even when there is none. */
    method SchemaFor(version: SchemaVersion) returns (s: Option<Schema>)
      requires Valid()
      modifies this`schemas
      ensures Valid()
      ensures s == SchemaForVersion(version)
      ensures schemas == old(schemas)[version := s]
    {
      if version in schemas {
        return schemas[version];
      }
      s := SchemaForVersion(version);
      schemas := schemas[version := s];
    }

    /** `deserialize(bytes_)`: `None` passes through; otherwise the envelope
        is decoded (its errors propagate as they are), the writer's version
        fetched (memoized), its schema built (memoized) and the payload read
        with it. */
    method Deserialize(input: Option<Bytes>, reply: GlueReply) returns (r: Result<Option<(D, Schema)>, SerdeError>)
      requires Valid()
      modifies this`versions, this`schemas, this`fetches
      ensures Valid()
      ensures r == DeserializeOutcome(payloads, zlib, old(versions), input, reply)
      ensures (input.Some? && Decoded(input.value, zlib).Ok?) ==>
        var id := Decoded(input.value, zlib).value.1;
        var fetched := Fetched(old(versions), id, reply);
        && (id in old(versions) ==> versions == old(versions) && fetches == old(fetches))
        && (id !in old(versions) ==>
              && fetches == old(fetches) + [Fetch(SchemaVersionRequest(id), id, fetched.Ok?)]
              && versions == if fetched.Ok? then old(versions)[id := fetched.value] else old(versions))
        && schemas == if fetched.Ok? then old(schemas)[fetched.value := SchemaForVersion(fetched.value)]
                      else old(schemas)
      ensures !(input.Some? && Decoded(input.value, zlib).Ok?) ==>
        versions == old(versions) && fetches == old(fetches) && schemas == old(schemas)
    {
      if input.None? {
        return Ok(None);
      }
      var decoded := Decode(input.value, zlib);
      if decoded.Err? {
        return Err(Decoding(decoded.error));
      }
      var (data, id) := decoded.value;
      var fetched := GetSchemaVersion(id, reply);
      if fetched.Err? {
        return Err(Registry(fetched.error));
      }
      var schema := SchemaFor(fetched.value);
      if schema.None? {
        return Err(AttributeError("read"));
      }
      var value := payloads.read(schema.value, data);
      if value.Err? {
        return Err(PayloadError(value.error));
      }
      r := Ok(Some((value.value, schema.value)));
    }
  }

  /** Once the writer's version is remembered, deserializing the same bytes
      again gives the same outcome whatever the registry would answer. */
  lemma DeserializeAgain<D>(payloads: Payloads<D>, z: Zlib, versions: map<Uuid, SchemaVersion>, reply: GlueReply,
                            later: map<Uuid, SchemaVersion>, laterReply: GlueReply, bytes: Bytes)
    requires Decoded(bytes, z).Ok?
    requires var id := Decoded(bytes, z).value.1;
      id in later && Fetched(versions, id, reply) == Ok(later[id])
    ensures DeserializeOutcome(payloads, z, later, Some(bytes), laterReply)
         == DeserializeOutcome(payloads, z, versions, Some(bytes), reply)
  {
  }

  /** Two deserializations of the same bytes in a row. The call log only
      grows; once the first has succeeded, the second reads the same value
      with the same schema and the two together made only the first call's
      fetch of the writer's version id, none at all when it was already
      remembered. */
  method DeserializeTwice<D>(deserializer: KafkaDeserializer<D>, bytes: Bytes, reply1: GlueReply, reply2: GlueReply)
    returns (first: Result<Option<(D, Schema)>, SerdeError>, second: Result<Option<(D, Schema)>, SerdeError>)
    requires deserializer.Valid()
    modifies deserializer
    ensures deserializer.Valid()
    ensures old(deserializer.fetches) <= deserializer.fetches
    ensures first.Ok? ==> second == first
    ensures first.Ok? ==>
      && Decoded(bytes, deserializer.zlib).Ok?
      && (var id := Decoded(bytes, deserializer.zlib).value.1;
          deserializer.fetches == old(deserializer.fetches)
            + if id in old(deserializer.versions) then [] else [Fetch(SchemaVersionRequest(id), id, true)])
  {
    ghost var versions0 := deserializer.versions;
    first := deserializer.Deserialize(Some(bytes), reply1);
    if first.Ok? {
      DeserializeAgain(deserializer.payloads, deserializer.zlib, versions0, reply1,
                       deserializer.versions, reply2, bytes);
    }
    second := deserializer.Deserialize(Some(bytes), reply2);
  }


  /** `serialize` never compresses: every envelope it produces has flag
      0x00, and the written payload follows the header verbatim. */
  lemma SerializeUncompressed<D>(payloads: Payloads<D>, z: Zlib, versions: map<SerializerKey, SchemaVersion>,
                                 data: D, schema: Schema, reply: GlueReply)
    requires SerializeOutcome(payloads, z, versions, Value(DataAndSchema(data, schema)), reply).Ok?
    ensures var out := SerializeOutcome(payloads, z, versions, Value(DataAndSchema(data, schema)), reply).value;
      && out.Some? && |out.value| >= HEADER_SIZE
      && out.value[0] == 0x03 && out.value[1] == 0x00
      && payloads.write(schema, data).Ok?
      && out.value[HEADER_SIZE..] == payloads.write(schema, data).value
  {
    var out := SerializeOutcome(payloads, z, versions, Value(DataAndSchema(data, schema)), reply).value.value;
    var written := payloads.write(schema, data).value;
    assert out[HEADER_SIZE..] == written;
  }

  /** `None` passes through both directions, and `serialize` refuses a
      non-tuple before anything else happens. */
  lemma NonePassesThrough<D>(payloads: Payloads<D>, z: Zlib, sv: map<SerializerKey, SchemaVersion>,
                             dv: map<Uuid, SchemaVersion>, reply: GlueReply)
    ensures SerializeOutcome(payloads, z, sv, NoValue, reply) == Ok(None)
    ensures DeserializeOutcome(payloads, z, dv, None, reply) == Ok(None)
    ensures SerializeOutcome(payloads, z, sv, NotATuple, reply) == Err(TypeError)
  {
  }

  /** A decoding failure, an unknown encoding among them, propagates from
      `deserialize` unchanged: nothing else is tried. */
  lemma DecodeErrorsPropagate<D>(payloads: Payloads<D>, z: Zlib, dv: map<Uuid, SchemaVersion>,
                                 bytes: Bytes, reply: GlueReply)
    requires Decoded(bytes, z).Err?
    ensures DeserializeOutcome(payloads, z, dv, Some(bytes), reply) == Err(Decoding(Decoded(bytes, z).error))
  {
  }

  /** The schema the deserializer builds for a version whose definition and
      format are those of `schema`. */
  function Rebuilt(schema: Schema): Schema {
    match schema.dataFormat
    case Avro => AvroSchema(schema.text)
    case Json => JsonSchema(schema.text)
  }

  /** End to end: what the serializer writes for `(data, schema)` under the
      version `v` it resolved, the deserializer reads back as `data`, given
      that the version it obtains for `v`'s id (`w`, cached or fetched)
      carries the schema's definition and format, and that reading with the
      rebuilt schema undoes writing. A JSON schema comes back as itself. */
  lemma SerializeThenDeserialize<D>(payloads: Payloads<D>, z: Zlib,
                                    sv: map<SerializerKey, SchemaVersion>, dv: map<Uuid, SchemaVersion>,
                                    data: D, schema: Schema, v: SchemaVersion, w: SchemaVersion,
                                    reply1: GlueReply, reply2: GlueReply)
    requires SerializerSchemaName(schema).Some?
    requires Resolved(sv, (schema, SerializerSchemaName(schema).value), reply1) == Ok(v)
    requires Fetched(dv, v.versionId, reply2) == Ok(w)
    requires w.definition == schema.text && w.dataFormat == DataFormatName(schema.dataFormat)
    requires payloads.write(schema, data).Ok?
    requires payloads.read(Rebuilt(schema), payloads.write(schema, data).value) == Ok(data)
    ensures SerializeOutcome(payloads, z, sv, Value(DataAndSchema(data, schema)), reply1).Ok?
    ensures var out := SerializeOutcome(payloads, z, sv, Value(DataAndSchema(data, schema)), reply1).value;
      && out.Some?
      && DeserializeOutcome(payloads, z, dv, out, reply2) == Ok(Some((data, Rebuilt(schema))))
    ensures schema.dataFormat == Json && schema.fqn == Some("") ==> Rebuilt(schema) == schema
  {
    var written := payloads.write(schema, data).value;
    var envelope := Envelope(written, v.versionId, false, z);
    assert SerializeOutcome(payloads, z, sv, Value(DataAndSchema(data, schema)), reply1) == Ok(Some(envelope));
    DecodeEncode(written, v.versionId, false, z);
    assert SchemaForVersion(w) == Some(Rebuilt(schema)) by {
      if schema.dataFormat == Avro {
        assert w.dataFormat == "AVRO";
      } else {
        assert w.dataFormat == "JSON";
      }
    }
  }
}
