# AWS Glue Schema Registry client for Python — a Dafny model

This project models the core of the Python client for the AWS Glue Schema
Registry: the wire envelope that prefixes every Kafka key or value with a
magic byte, a compression flag and the writer schema's version UUID; the
registry client's two lookups, which turn a Glue response into a
`SchemaVersion` or an exception; the Kafka serializer and deserializer that
compose codec, client and schema implementations behind memo tables; the
three schema-naming strategies; and the data model (data formats,
compatibility modes, statuses, `SchemaVersion` and its hash).

Files, one module each:

- `wrappers.dfy` — `Option` and `Result`.
- `uuids.dfy` — bytes, UUIDs, `str(uuid)` and `UUID(text)`.
- `strings.dfy` — `str.split`, its inverse `str.join`, and the `split(sep)[-1]` idiom.
- `schema.dfy` — `schema.py`: enumerations, `SchemaVersion`, `Schema`, and the two implementations' constructors.
- `codec.dfy` — `codec.py`: `encode`/`decode` as methods over an in-memory byte stream (`io.BytesIO`), proved against the layout functions `Envelope` and `Decoded`.
- `client.dfy` — `client.py`: `schema_name_from_arn`, `get_schema_version`, `get_schema_by_definition`.
- `naming.dfy` — `naming.py`.
- `serde.dfy` — `serde.py`: `KafkaSerializer` and `KafkaDeserializer` as classes whose map fields are the `lru_cache` tables, with ghost logs of the registry calls made.

Modelling choices:

- The Glue service is not modelled. Each lookup takes the service's reply (`GlueReply`: an exception, or a response whose keys may be missing) as an input, and the request it would have sent is a separate function (`SchemaVersionRequest`, `ByDefinitionRequest`), recorded in the serde classes' ghost logs.
- zlib is a pair of functions (`Codec.Zlib`); the one property the codec needs, that decompressing a compressed payload gives it back, is the hypothesis `Lossless` of the round-trip lemma rather than an axiom.
- The schema implementations' `read` and `write` (fastavro, orjson, fastjsonschema) are function values (`Payloads`). A `Schema` is a value: its data format, its `fqn` (absent for `AvroSchema`, which has no such attribute) and the definition it was built from, which stands for its string form. Datatype equality differs from Python's `==` in both directions. For `JsonSchema` it is finer: schemas equal in the model are equal in Python, but definitions that differ only in layout or key order are equal in Python and not in the model. For `AvroSchema` it is coarser: that class defines no `__eq__`, so two objects built from one definition are unequal in Python but equal in the model.
- Exceptions are `Err` values whose constructor names the Python exception raised, so the model keeps which errors are `CodecException`s, which are wrapped in `SchemaRegistryException` and which escape unwrapped.

Where the program's own documentation and its code differ, the model follows the code:

- The docstring of `decode` (`codec.py`, lines 105-109) promises a `CodecException` for any decoding error other than an unknown encoding. In the code, a zlib failure propagates as zlib's own error. An input with the magic byte but fewer than 18 bytes fails with `ValueError` while building the UUID, before the flag is checked.
- The docstring of `KafkaSerializer` (`serde.py`, lines 30-37) lists `compatibility_mode` and `auto_register_schema` arguments, which its constructor does not accept. There is no get-or-register resolver, no polling and no auto-registration. The serializer registers under the last dot-separated part of `schema.fqn`, and no naming strategy is wired into it.
- The docstring of `KafkaDeserializer` (`serde.py`, lines 75-80) lists a `secondary_deserializer` argument, which its constructor does not accept either. An unknown encoding therefore always propagates.
- The serializer's memo table is keyed by the schema and that name, not by the topic.

## Model

| member | source | states |
|---|---|---|
| `Codec.Encode` | src/aws_schema_registry/codec.py:61-92 | writing the magic byte, the flag, the UUID bytes and the (possibly compressed) payload to a fresh stream yields exactly `Envelope(data, id, compression)` |
| `Codec.Decode` | src/aws_schema_registry/codec.py:95-126 | reading magic byte, flag, 16 id bytes and the rest through a cursor yields exactly `Decoded(input)`: the same results and the same errors, in the same order, as the positional description |
| `Codec.ByteStream.constructor` | src/aws_schema_registry/codec.py:111 | a new stream holds the initial bytes with its cursor at 0 |
| `Codec.ByteStream.Write` | src/aws_schema_registry/codec.py:86-89 | `BytesIO.write` overwrites from the cursor, extends the buffer as needed and advances the cursor by the length written |
| `Codec.ByteStream.Read` | src/aws_schema_registry/codec.py:112-118 | `BytesIO.read(n)` returns the next `n` bytes, fewer at the end, and advances past them |
| `Codec.ByteStream.ReadAll` | src/aws_schema_registry/codec.py:119 | `BytesIO.read()` returns everything after the cursor |
| `Codec.Envelope` | src/aws_schema_registry/codec.py:61-92 | the envelope has byte 0 equal to 0x03, byte 1 equal to 0x05 when compressing and 0x00 otherwise, then the UUID's 16 bytes, then the payload: the compressed data when compressing, the data verbatim otherwise |
| `Codec.DecodedOutcomes` | src/aws_schema_registry/codec.py:95-126 | how `decode` ends, by input: an unknown encoding exactly when there is no leading 0x03, a UUID `ValueError` exactly for a shorter-than-18-byte input behind 0x03, an unknown flag or a failed inflate only behind a whole header, and on success a flag of 0x00 or 0x05 and bytes 2-17 as the id |
| `Codec.DecodeEncode` | src/aws_schema_registry/codec.py:61-126 | decoding an encoded envelope gives back the payload and the UUID, without compression always and with compression whenever zlib is lossless |
| `Codec.UnknownLeadingByte` | src/aws_schema_registry/codec.py:112-116 | an empty input or any leading byte other than 0x03 raises `UnknownEncodingException`, whatever follows |
| `Codec.UnknownEncodingIsCodecException` | src/aws_schema_registry/codec.py:53-58 | every `UnknownEncodingException` is a `CodecException` |
| `Codec.UnknownCompressionFlag` | src/aws_schema_registry/codec.py:117-125 | behind 0x03 and a whole UUID, a flag other than 0x00 and 0x05 raises a `CodecException` that is not an `UnknownEncodingException` |
| `Codec.ShortInput` | src/aws_schema_registry/codec.py:117-118 | behind 0x03, an input shorter than 18 bytes fails building the UUID (`ValueError`), never with a `CodecException`, whatever its flag |
| `Codec.UncompressedInput` | src/aws_schema_registry/codec.py:117-126 | with flag 0x00 the result is exactly (bytes 18.., UUID of bytes 2-17) |
| `Codec.CompressedInput` | src/aws_schema_registry/codec.py:120-121 | with flag 0x05 the payload is the inflated rest; an inflate failure is zlib's error, not a `CodecException` |
| `Codec.LeadingZeroInputs` | tests/test_codec.py:21-31 | `00 05 00 00` and `00 01 00 00` both raise `UnknownEncodingException`, so the "unknown compression" input is a `CodecException` only through the subclass |
| `Uuids.ParseUuid` | src/aws_schema_registry/client.py:82 | `UUID(text)` succeeds exactly when the text without hyphens is 32 hex digits |
| `Uuids.FormatUuid` | src/aws_schema_registry/client.py:67 | `str(id)` is 36 characters: lower-case hex digits with hyphens at positions 8, 13, 18 and 23 |
| `Uuids.ParseFormatUuid` | src/aws_schema_registry/client.py:66-82 | parsing `str(id)` gives back `id`, so an id sent as text and read back is unchanged |
| `Uuids.FromHexOfHex` | src/aws_schema_registry/client.py:82 | reading back the hex digits of some bytes gives those bytes |
| `Strings.Split` | src/aws_schema_registry/client.py:22-23 | `s.split(sep)` is never empty and none of its pieces holds `sep` |
| `Strings.JoinSplit` | src/aws_schema_registry/client.py:22-23 | joining the pieces of `s.split(sep)` with `sep` gives `s` back |
| `Strings.SplitJoin` | src/aws_schema_registry/serde.py:53 | splitting a `sep`-join of `sep`-free pieces gives those pieces back, so `split` and `join` are inverse |
| `Strings.LastSegment` | src/aws_schema_registry/client.py:22-23 | `s.split(sep)[-1]` is a suffix of `s` without `sep`, and is all of `s` or follows a `sep`; it is `s` itself when `s` has no `sep` |
| `Strings.LastSegmentUnique` | src/aws_schema_registry/serde.py:53 | that description determines `split(sep)[-1]` uniquely |
| `SchemaModel.ParseDataFormat` | src/aws_schema_registry/schema.py:14 | a data-format literal, when recognised, is named by that string |
| `SchemaModel.DataFormatLiterals` | src/aws_schema_registry/schema.py:14 | the data formats are exactly "AVRO" and "JSON", each named uniquely |
| `SchemaModel.ParseCompatibilityMode` | src/aws_schema_registry/schema.py:16-17 | a compatibility-mode literal, when recognised, is named by that string |
| `SchemaModel.CompatibilityModeLiterals` | src/aws_schema_registry/schema.py:16-31 | the compatibility modes are exactly the eight listed strings |
| `SchemaModel.ParseStatus` | src/aws_schema_registry/schema.py:34 | a status literal, when recognised, is named by that string |
| `SchemaModel.StatusLiterals` | src/aws_schema_registry/schema.py:33-34 | version statuses are AVAILABLE, PENDING, FAILURE, DELETING; schema statuses are those without FAILURE |
| `SchemaModel.NewSchemaVersion` | src/aws_schema_registry/schema.py:59-66 | building a `SchemaVersion` without a version number leaves it `None` and keeps every other field |
| `SchemaModel.HashRespectsEquality` | src/aws_schema_registry/schema.py:59-69 | the hash reads only the definition: equal versions hash alike, and versions differing only in id collide yet compare unequal |
| `SchemaModel.AvroSchema` | src/aws_schema_registry/avro.py:22-30 | an Avro schema has format AVRO, keeps its definition string and has no `fqn` |
| `SchemaModel.JsonSchema` | src/aws_schema_registry/jsonschema.py:19-45 | a JSON schema has format JSON, `fqn` "" and its definition as string form |
| `Client.SchemaNameFromArn` | src/aws_schema_registry/client.py:22-23 | the schema name is the text after the ARN's last '/', the whole ARN without one, and holds no '/' |
| `Client.SchemaNameFromTestArn` | tests/test_client.py:10-13 | the unit tests' ARN gives the name "User-Topic" |
| `Client.DefaultClient` | src/aws_schema_registry/client.py:44-54 | a client built with defaults targets "default-registry", waits up to 10 attempts, 3 seconds apart |
| `Client.SchemaVersionRequest` | src/aws_schema_registry/client.py:65-68 | the lookup by id sends the id as text that parses back to it |
| `Client.ByDefinitionRequest` | src/aws_schema_registry/client.py:108-114 | the lookup by definition names the client's registry, the given schema name and the definition |
| `Client.GetSchemaVersion` | src/aws_schema_registry/client.py:56-87 | a returned version comes from an available response (id not `None`, status AVAILABLE) and has status AVAILABLE |
| `Client.GetSchemaVersionSuccess` | src/aws_schema_registry/client.py:73-87 | it succeeds exactly on a complete available response, and the version has the parsed id, the response's definition, format and number, and the name from the ARN |
| `Client.GetSchemaVersionFailures` | src/aws_schema_registry/client.py:65-82 | a failed call and an unavailable version raise `SchemaRegistryException`; a malformed id escapes as `ValueError`, outside the `try` |
| `Client.GetSchemaVersionEchoesId` | tests/test_client.py:57-69 | a response carrying `str(id)` yields a version whose id is `id` |
| `Client.GetSchemaByDefinition` | src/aws_schema_registry/client.py:89-133 | a returned version comes from an available response and has status AVAILABLE; every failure is a `SchemaRegistryException` |
| `Client.GetSchemaByDefinitionSuccess` | src/aws_schema_registry/client.py:115-128 | it succeeds exactly on an available response with ARN, format and a UUID id; the version carries the requested definition, no version number, the parsed id and the name from the ARN |
| `Client.GetSchemaByDefinitionFailures` | src/aws_schema_registry/client.py:103-133 | a failed call, an unavailable version, a missing id key and a malformed id are each wrapped in `SchemaRegistryException` |
| `Naming.TopicNameStrategy` | src/aws_schema_registry/naming.py:45-54 | the name is the topic, a '-', then "key" exactly for keys and "value" exactly for values |
| `Naming.TopicNameStrategyProperties` | src/aws_schema_registry/naming.py:45-54 | topic naming ignores the schema, gives a topic's keys and values different names, and different topics different names |
| `Naming.RecordNameStrategyIgnoresTopic` | src/aws_schema_registry/naming.py:57-64 | record naming is the schema's `fqn` whatever the topic and role |
| `Naming.TopicRecordNameStrategy` | src/aws_schema_registry/naming.py:67-75 | the name exists exactly when the schema has an `fqn`, and is the topic, a '-', then the `fqn` |
| `Naming.TopicRecordNameStrategyProperties` | src/aws_schema_registry/naming.py:67-75 | topic-record naming is `topic-fqn`, ignores the role, and separates one record name used on two topics |
| `Serde.SerializerSchemaName` | src/aws_schema_registry/serde.py:53 | the serializer's schema name exists exactly when the schema has an `fqn`, and is its last dot-separated part: a dot-free suffix that is all of `fqn` or follows a dot |
| `Serde.KafkaSerializer.constructor` | src/aws_schema_registry/serde.py:40-44 | a new serializer has an empty memo table and has made no lookups |
| `Serde.KafkaSerializer.GetSchemaVersion` | src/aws_schema_registry/serde.py:58-63 | a remembered key answers without a registry call; otherwise one lookup by `str(schema)` under the name is made, and only a success is remembered; no key is looked up again after a success |
| `Serde.KafkaSerializer.Serialize` | src/aws_schema_registry/serde.py:46-56 | `None` gives `None`, a non-tuple a `TypeError`, a schema without `fqn` an `AttributeError`; otherwise the result is `SerializeOutcome` and the memo table and call log change only by that one lookup |
| `Serde.SerializeTwice` | src/aws_schema_registry/serde.py:58-63 | over two serializations of one value the lookup log only grows; when the first succeeds, the second gives the same bytes and the two together made exactly the first call's lookup of the schema's key, none when the key was already remembered |
| `Serde.SerializeUncompressed` | src/aws_schema_registry/serde.py:54-56 | every serialized envelope has magic 0x03, flag 0x00, and the written payload verbatim after the header |
| `Serde.NonePassesThrough` | src/aws_schema_registry/serde.py:46-51 | `serialize(None)` and `deserialize(None)` return `None`; a non-tuple is a `TypeError` |
| `Serde.SchemaForVersion` | src/aws_schema_registry/serde.py:105-110 | a schema is built exactly for "AVRO" and "JSON", with that format and the version's definition, and with no `fqn` for Avro and `fqn` "" for JSON; otherwise `None` |
| `Serde.JsonSchemaRegistersUnderEmptyName` | src/aws_schema_registry/serde.py:53 | a JSON schema's `fqn` is "", so the serializer registers every JSON schema under the empty name |
| `Serde.KafkaDeserializer.constructor` | src/aws_schema_registry/serde.py:83-89 | a new deserializer has empty memo tables and has made no fetches |
| `Serde.KafkaDeserializer.GetSchemaVersion` | src/aws_schema_registry/serde.py:100-102 | a remembered id answers without a registry call; otherwise one fetch by id is made and only a success is remembered; no id is fetched again after a success |
| `Serde.KafkaDeserializer.SchemaFor` | src/aws_schema_registry/serde.py:104-109 | the schema for a version is `SchemaForVersion` and is remembered, a `None` included |
| `Serde.KafkaDeserializer.Deserialize` | src/aws_schema_registry/serde.py:91-98 | the result is `DeserializeOutcome`: decode, fetch (memoized), schema for the version (memoized), read; the memo tables change only by that fetch and that schema |
| `Serde.DeserializeTwice` | src/aws_schema_registry/serde.py:100-102 | over two deserializations of some bytes the fetch log only grows; when the first succeeds, the second gives the same value and schema and the two together made exactly the first call's fetch of the writer's id, none when it was already remembered |
| `Serde.DeserializeAgain` | src/aws_schema_registry/serde.py:91-102 | once the writer's version is remembered as what an earlier call obtained, deserializing the same bytes gives that call's outcome, success or failure, whatever the registry would answer |
| `Serde.DecodeErrorsPropagate` | src/aws_schema_registry/serde.py:95 | a decoding error, an unknown encoding included, propagates from `deserialize` unchanged |
| `Serde.SerializeThenDeserialize` | tests/integration/test_kafka_integration.py:117-141 | what is serialized under a version is deserialized back to the same data when the registry gives that version's definition and format for its id and reading undoes writing; a JSON schema comes back as itself |

## Left out

- The Glue service, botocore and the network: the reply to each call is an input; `TemporaryRegistry` (random names, the clock, creating and deleting registries) is I/O and is not modelled.
- Logging calls and the texts of exception messages.
- zlib's DEFLATE format: only the lossless round trip is assumed.
- fastavro, orjson and fastjsonschema: `read` and `write` are function values. Parsing a definition when a schema is built cannot fail in the model. JSON documents are not parsed.
- `SchemaModel.JsonSchema`: the definition stands for the string form. Python's `str` is orjson's re-serialisation of the parsed document, which is not computed.
- Equality of `JsonSchema`s: Python's `JsonSchema.__eq__` compares the parsed documents, so definitions that differ only in whitespace or key order are equal in Python, but they are unequal in the model, where equality is text equality of the definition. Python's `__hash__` hashes the re-serialised text, so such equal schemas can also hash differently there; the model cannot express that.
- `SchemaModel.AvroSchema`: the definition stands for the string form. Python's `str` of an `AvroSchema` is the default object representation, since the class defines no `__str__`. Nothing in the core reads it, because `serialize` fails at `schema.fqn` first.
- `AvroSchema` compares by object identity in Python; the model compares schemas by value. The deserializer caches the schema per version, so this changes no result here.
- `AvroSchema` has no `fqn` attribute, though the unit tests assert one. So the serializer raises `AttributeError` for every Avro schema, and `SerializeThenDeserialize` needs a schema that has an `fqn`.
- `KafkaDeserializer`'s `return_record_name` is stored and never passed on to `AvroSchema`; the model keeps the field and does nothing else with it.
- Python's truthiness of `compression` is reduced to a `bool`; a tuple of the wrong length passed to `serialize` (an unpacking `ValueError`) is not modelled.
- `Uuids.ParseUuid`: accepts the hex form with any hyphens, as `UUID(text)` does. It does not model the other forms Python also accepts: "urn:" and "uuid:" prefixes, surrounding braces, and what `int(text, 16)` tolerates (a "0x" prefix, underscores, whitespace, a sign).
- Response keys other than `SchemaVersionId`, `Status` and `VersionNumber` are missing or hold a string; botocore never sends `None` for them.
- `lru_cache` is one table per function, shared by all instances and keyed by `self`; it is modelled as per-instance maps. Thread safety and concurrent calls are out.
- The Kafka adapter, packaging, and the Kafka/Java integration harnesses.
