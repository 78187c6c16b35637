/** The registry client: the two lookups the serializer and deserializer
    use, which turn the Glue service's answer into a `SchemaVersion` or an
    exception. The Glue call itself is not modelled: its answer, a response
    or a failure, is an input. */
module Client {
  import opened Wrappers
  import opened Uuids
  import opened Strings
  import opened SchemaModel

  const DEFAULT_COMPATIBILITY_MODE: CompatibilityMode := Backward
  const DEFAULT_REGISTRY_NAME: string := "default-registry"

  /** `schema_name_from_arn`: the part of the ARN after its last '/', the
      whole ARN when it has none; it never holds a '/'. */
  function SchemaNameFromArn(arn: string): (name: string)
    ensures '/' !in name
    ensures |name| <= |arn| && arn == arn[..|arn| - |name|] + name
    ensures |name| < |arn| ==> arn[|arn| - |name| - 1] == '/'
    ensures '/' !in arn ==> name == arn
  {
    LastSegment(arn, '/')
  }

  /** The ARN the unit tests use yields the schema name "User-Topic". */
  lemma SchemaNameFromTestArn()
    ensures SchemaNameFromArn("arn:aws:glue:us-west-2:123:schema/user-topic/User-Topic") == "User-Topic"
  {
    var arn := "arn:aws:glue:us-west-2:123:schema/user-topic/User-Topic";
    assert arn[|arn| - 10..] == "User-Topic";
    assert arn[|arn| - 11] == '/';
    LastSegmentUnique(arn, '/', "User-Topic");
  }

  /** `SchemaRegistryClient`'s settings, fixed at construction. */
  datatype SchemaRegistryClient = SchemaRegistryClient(
    registryName: string,
    maxWaitAttempts: int,
    waitIntervalSeconds: real)

  /** `SchemaRegistryClient(glue_client)` with every default. */
  function DefaultClient(): (c: SchemaRegistryClient)
    ensures c.registryName == "default-registry"
    ensures c.maxWaitAttempts == 10 && c.waitIntervalSeconds == 3.0
  {
    SchemaRegistryClient(DEFAULT_REGISTRY_NAME, 10, 3.0)
  }

  /** A key of the response dictionary: missing, present with `None`, or
      present with a value. */
  datatype Field<T> = Absent | Null | Present(value: T)

  /** The Glue response dictionary, limited to the keys the client reads.
      `SchemaArn`, `SchemaDefinition` and `DataFormat` are either missing or
      hold a string. */
  datatype GlueResponse = GlueResponse(
    schemaVersionId: Field<string>,
    status: Field<string>,
    schemaArn: Option<string>,
    schemaDefinition: Option<string>,
    dataFormat: Option<string>,
    versionNumber: Field<int>)

  /** The outcome of one remote call: an exception from the Glue client, or
      its response. */
  datatype GlueReply = GlueFailed(reason: string) | Replied(response: GlueResponse)

  /** The requests the two lookups send. */
  datatype GlueRequest =
    | GetSchemaVersionRequest(schemaVersionId: string)
    | GetSchemaByDefinitionRequest(schemaName: string, registryName: string, schemaDefinition: string)

  /** Why a `SchemaRegistryException` was raised. */
  datatype Reason =
    | RemoteError(reason: string)        // the Glue call raised
    | NotAvailable(status: Field<string>) // no version id, or status not AVAILABLE
    | MissingKey(key: string)            // a response key was missing (a wrapped KeyError)
    | BadVersionId(text: string)         // the version id was not a UUID (a wrapped ValueError)

  /** What the lookups raise. `KeyError` and `ValueError` escape
      `get_schema_version` unwrapped. */
  datatype ClientError =
    | SchemaRegistryException(reason: Reason)
    | KeyError(key: string)
    | ValueError(text: string)

  /** The request `get_schema_version` sends: the id in its text form. */
  function SchemaVersionRequest(versionId: Uuid): (q: GlueRequest)
    ensures q.GetSchemaVersionRequest? && ParseUuid(q.schemaVersionId) == Some(versionId)
  {
    ParseFormatUuid(versionId);
    GetSchemaVersionRequest(FormatUuid(versionId))
  }

  /** The request `get_schema_by_definition` sends: the schema name within
      the client's registry, and the definition. */
  function ByDefinitionRequest(client: SchemaRegistryClient, definition: string,
                               schemaName: string): (q: GlueRequest)
    ensures q.GetSchemaByDefinitionRequest?
    ensures q.schemaName == schemaName && q.registryName == client.registryName
    ensures q.schemaDefinition == definition
  {
    GetSchemaByDefinitionRequest(schemaName, client.registryName, definition)
  }

  /** Whether a response passes the availability check: a version id that is
      not `None`, and status AVAILABLE. */
  predicate IsAvailable(res: GlueResponse) {
    res.schemaVersionId.Present? && res.status == Present(AVAILABLE)
  }

  /** `get_schema_version(version_id)`, given the Glue service's reply to
      `SchemaVersionRequest(version_id)`. */
  function GetSchemaVersion(reply: GlueReply): (r: Result<SchemaVersion, ClientError>)
    ensures r.Ok? ==> reply.Replied? && IsAvailable(reply.response)
    ensures r.Ok? ==> r.value.status == "AVAILABLE"
  {
    match reply
    case GlueFailed(reason) => Err(SchemaRegistryException(RemoteError(reason)))
    case Replied(res) =>
      if res.schemaVersionId.Absent? then Err(KeyError("SchemaVersionId"))
      else if res.status.Absent? then Err(KeyError("Status"))
      else if !IsAvailable(res) then Err(SchemaRegistryException(NotAvailable(res.status)))
      else if res.schemaArn.None? then Err(KeyError("SchemaArn"))
      else
        var idText := res.schemaVersionId.value;
        match ParseUuid(idText)
        case None => Err(ValueError(idText))
        case Some(id) =>
          if res.schemaDefinition.None? then Err(KeyError("SchemaDefinition"))
          else if res.dataFormat.None? then Err(KeyError("DataFormat"))
          else if res.versionNumber.Absent? then Err(KeyError("VersionNumber"))
          else
            Ok(SchemaVersion(
              SchemaNameFromArn(res.schemaArn.value),
              id,
              res.schemaDefinition.value,
              res.dataFormat.value,
              res.status.value,
              if res.versionNumber.Present? then Some(res.versionNumber.value) else None))
  }

  /** `get_schema_by_definition(definition, schema_name)`, given the Glue
      service's reply to `ByDefinitionRequest(client, definition,
      schema_name)`. */
  function GetSchemaByDefinition(definition: string, reply: GlueReply): (r: Result<SchemaVersion, ClientError>)
    ensures r.Ok? ==> reply.Replied? && IsAvailable(reply.response)
    ensures r.Ok? ==> r.value.status == "AVAILABLE"
    ensures r.Err? ==> r.error.SchemaRegistryException?
  {
    match reply
    case GlueFailed(reason) => Err(SchemaRegistryException(RemoteError(reason)))
    case Replied(res) =>
      if res.schemaVersionId.Absent? then Err(SchemaRegistryException(MissingKey("SchemaVersionId")))
      else if res.status.Absent? then Err(SchemaRegistryException(MissingKey("Status")))
      else if !IsAvailable(res) then Err(SchemaRegistryException(NotAvailable(res.status)))
      else if res.schemaArn.None? then Err(SchemaRegistryException(MissingKey("SchemaArn")))
      else
        var idText := res.schemaVersionId.value;
        match ParseUuid(idText)
        case None => Err(SchemaRegistryException(BadVersionId(idText)))
        case Some(id) =>
          if res.dataFormat.None? then Err(SchemaRegistryException(MissingKey("DataFormat")))
          else
            Ok(NewSchemaVersion(
              SchemaNameFromArn(res.schemaArn.value), id, definition,
              res.dataFormat.value, res.status.value))
  }

  /** The keys `get_schema_version` reads when the status check passes, all
      present and the id a UUID. */
  predicate CompleteVersionResponse(res: GlueResponse) {
    && IsAvailable(res)
    && res.schemaArn.Some?
    && ParseUuid(res.schemaVersionId.value).Some?
    && res.schemaDefinition.Some?
    && res.dataFormat.Some?
    && !res.versionNumber.Absent?
  }

  /** `get_schema_version` succeeds exactly on a complete, available
      response, and then the version carries the response's id, definition,
      format and number, and the schema name from the ARN. */
  lemma GetSchemaVersionSuccess(reply: GlueReply)
    ensures GetSchemaVersion(reply).Ok? <==> reply.Replied? && CompleteVersionResponse(reply.response)
    ensures GetSchemaVersion(reply).Ok? ==>
      var res, v := reply.response, GetSchemaVersion(reply).value;
      && Some(v.versionId) == ParseUuid(res.schemaVersionId.value)
      && v.definition == res.schemaDefinition.value
      && v.dataFormat == res.dataFormat.value
      && (res.versionNumber.Present? ==> v.versionNumber == Some(res.versionNumber.value))
      && (res.versionNumber.Null? ==> v.versionNumber == None)
      && v.schemaName == SchemaNameFromArn(res.schemaArn.value)
  {
  }

  /** The ways `get_schema_version` fails: a failed call and a version that
      is not available raise `SchemaRegistryException`; a missing key and a
      malformed id (the UUID is built outside the `try`) escape as they
      are. */
  lemma GetSchemaVersionFailures(reply: GlueReply)
    ensures reply.GlueFailed? ==>
      GetSchemaVersion(reply) == Err(SchemaRegistryException(RemoteError(reply.reason)))
    ensures (reply.Replied? && !reply.response.schemaVersionId.Absent?
      && !reply.response.status.Absent? && !IsAvailable(reply.response)) ==>
      GetSchemaVersion(reply) == Err(SchemaRegistryException(NotAvailable(reply.response.status)))
    ensures (reply.Replied? && IsAvailable(reply.response) && reply.response.schemaArn.Some?
      && ParseUuid(reply.response.schemaVersionId.value).None?) ==>
      GetSchemaVersion(reply) == Err(ValueError(reply.response.schemaVersionId.value))
  {
  }

  /** A registry that answers with the text form of the id asked for hands
      back that same id (the unit test of `get_schema_version`). */
  lemma GetSchemaVersionEchoesId(versionId: Uuid, res: GlueResponse)
    requires res.schemaVersionId == Present(FormatUuid(versionId))
    requires GetSchemaVersion(Replied(res)).Ok?
    ensures GetSchemaVersion(Replied(res)).value.versionId == versionId
  {
    ParseFormatUuid(versionId);
  }

  /** `get_schema_by_definition` succeeds exactly when the response is
      available, has an ARN and a data format, and its id is a UUID; the
      version then carries the definition that was asked about (not one
      from the response) and no version number. Every failure is a
      `SchemaRegistryException`. */
  lemma GetSchemaByDefinitionSuccess(definition: string, reply: GlueReply)
    ensures GetSchemaByDefinition(definition, reply).Ok? <==>
      && reply.Replied?
      && IsAvailable(reply.response)
      && reply.response.schemaArn.Some?
      && ParseUuid(reply.response.schemaVersionId.value).Some?
      && reply.response.dataFormat.Some?
    ensures GetSchemaByDefinition(definition, reply).Ok? ==>
      var res, v := reply.response, GetSchemaByDefinition(definition, reply).value;
      && v.definition == definition
      && v.versionNumber == None
      && Some(v.versionId) == ParseUuid(res.schemaVersionId.value)
      && v.dataFormat == res.dataFormat.value
      && v.schemaName == SchemaNameFromArn(res.schemaArn.value)
  {
  }

  /** `get_schema_by_definition` wraps each way a lookup can go wrong: a
      failed call, a version that is not available, a missing key, a
      malformed id. */
  lemma GetSchemaByDefinitionFailures(definition: string, reply: GlueReply)
    ensures reply.GlueFailed? ==>
      GetSchemaByDefinition(definition, reply) == Err(SchemaRegistryException(RemoteError(reply.reason)))
    ensures (reply.Replied? && !reply.response.schemaVersionId.Absent?
      && !reply.response.status.Absent? && !IsAvailable(reply.response)) ==>
      GetSchemaByDefinition(definition, reply) == Err(SchemaRegistryException(NotAvailable(reply.response.status)))
    ensures reply.Replied? && reply.response.schemaVersionId.Absent? ==>
      GetSchemaByDefinition(definition, reply) == Err(SchemaRegistryException(MissingKey("SchemaVersionId")))
    ensures (reply.Replied? && IsAvailable(reply.response) && reply.response.schemaArn.Some?
      && ParseUuid(reply.response.schemaVersionId.value).None?) ==>
      GetSchemaByDefinition(definition, reply)
        == Err(SchemaRegistryException(BadVersionId(reply.response.schemaVersionId.value)))
  {
  }
}
