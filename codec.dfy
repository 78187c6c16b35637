/** The wire envelope of the Glue schema registry:

      byte 0      magic version byte 0x03
      byte 1      compression flag, 0x00 (none) or 0x05 (zlib)
      bytes 2-17  the raw 16 bytes of the writer schema's version UUID
      bytes 18-   the payload, deflated when the flag says so

    `Encode` and `Decode` work the way the Python code does, by writing to
    and reading from an in-memory byte stream; `Envelope` and `Decoded` say
    what they compute. */
module Codec {
  import opened Wrappers
  import opened Uuids

  const VERSION_BYTE: uint8 := 0x03
  const COMPRESSION_ENABLED_BYTE: uint8 := 0x05
  const COMPRESSION_DISABLED_BYTE: uint8 := 0x00
  const SCHEMA_VERSION_ID_SIZE: nat := 16
  /** Magic byte, flag byte and version id. */
  const HEADER_SIZE: nat := 2 + SCHEMA_VERSION_ID_SIZE

  /** zlib, a foreign library: `compress` always succeeds, `decompress`
      fails (`zlib.error`) with `None`. */
  datatype Zlib = Zlib(compress: Bytes -> Bytes, decompress: Bytes -> Option<Bytes>)

  /** The one property of zlib the codec relies on. */
  ghost predicate Lossless(z: Zlib) {
    forall x :: z.decompress(z.compress(x)) == Some(x)
  }

  /** What `decode` raises. `UnknownEncoding` and `UnknownCompression` are
      `UnknownEncodingException` and the plain `CodecException`;
      `BadUuidLength` is the `ValueError` of `UUID(bytes=...)` when fewer
      than 16 bytes are left, and `DecompressionFailed` is `zlib.error`:
      neither of the last two is a `CodecException`. */
  datatype DecodeError =
    | UnknownEncoding(leading: Bytes)
    | UnknownCompression(flag: Bytes)
    | BadUuidLength(got: nat)
    | DecompressionFailed

  /** The exception classes of the codec, for `isinstance` questions. */
  datatype CodecClass = CodecException | UnknownEncodingException

  /** `isinstance(e, cls)`: `UnknownEncodingException` subclasses
      `CodecException`. */
  predicate IsInstance(e: DecodeError, cls: CodecClass) {
    match cls
    case CodecException => e.UnknownEncoding? || e.UnknownCompression?
    case UnknownEncodingException => e.UnknownEncoding?
  }

  /** Every `UnknownEncodingException` is a `CodecException`. */
  lemma UnknownEncodingIsCodecException(e: DecodeError)
    ensures IsInstance(e, UnknownEncodingException) ==> IsInstance(e, CodecException)
  {
  }

  function CompressionFlag(compression: bool): uint8 {
    if compression then COMPRESSION_ENABLED_BYTE else COMPRESSION_DISABLED_BYTE
  }

  /** The envelope `encode` produces: the magic byte, the flag that matches
      `compression`, the id's raw bytes, then the payload, verbatim when not
      compressed. */
  function Envelope(data: Bytes, id: Uuid, compression: bool, z: Zlib): (e: Bytes)
    ensures |e| >= HEADER_SIZE && e[0] == 0x03
    ensures e[1] == (if compression then 0x05 else 0x00)
    ensures e[2..HEADER_SIZE] == id
    ensures e[HEADER_SIZE..] == if compression then z.compress(data) else data
  {
    [VERSION_BYTE, CompressionFlag(compression)] + id
      + (if compression then z.compress(data) else data)
  }

  /** What `decode` returns or raises, read off the input by position. */
  function Decoded(input: Bytes, z: Zlib): Result<(Bytes, Uuid), DecodeError>
  {
    if |input| == 0 || input[0] != VERSION_BYTE then
      Err(UnknownEncoding(input[..if |input| == 0 then 0 else 1]))
    else if |input| < HEADER_SIZE then
      Err(BadUuidLength(if |input| < 2 then 0 else |input| - 2))
    else
      var flag, id, data := input[1], input[2..HEADER_SIZE], input[HEADER_SIZE..];
      if flag == COMPRESSION_ENABLED_BYTE then
        match z.decompress(data)
        case Some(inflated) => Ok((inflated, id))
        case None => Err(DecompressionFailed)
      else if flag != COMPRESSION_DISABLED_BYTE then
        Err(UnknownCompression([flag]))
      else
        Ok((data, id))
  }

  /** `io.BytesIO`: a growable buffer and a cursor into it. */
  class ByteStream {
    var buffer: Bytes
    var position: nat

    ghost predicate Valid()
      reads this
    {
      position <= |buffer|
    }

    constructor (initial: Bytes)
      ensures Valid() && buffer == initial && position == 0
    {
      buffer := initial;
      position := 0;
    }

    /** `write(b)`: overwrites from the cursor on, extending the buffer as
        needed, and moves the cursor past what was written. */
    method Write(b: Bytes)
      requires Valid()
      modifies this
      ensures Valid()
      ensures buffer == old(buffer[..position]) + b
        + (if old(position) + |b| < old(|buffer|) then old(buffer[position + |b|..]) else [])
      ensures position == old(position) + |b|
    {
      var tail := if position + |b| < |buffer| then buffer[position + |b|..] else [];
      buffer := buffer[..position] + b + tail;
      position := position + |b|;
    }

    /** `read(n)`: up to `n` bytes from the cursor on; fewer at the end. */
    method Read(n: nat) returns (r: Bytes)
      requires Valid()
      modifies this`position
      ensures Valid()
      ensures var stop := if old(position) + n < |buffer| then old(position) + n else |buffer|;
        r == buffer[old(position)..stop] && position == stop
    {
      var stop := if position + n < |buffer| then position + n else |buffer|;
      r := buffer[position..stop];
      position := stop;
    }

    /** `read()`: everything from the cursor to the end. */
    method ReadAll() returns (r: Bytes)
      requires Valid()
      modifies this`position
      ensures Valid()
      ensures r == buffer[old(position)..] && position == |buffer|
    {
      r := buffer[position..];
      position := |buffer|;
    }
  }

  /** `encode(data, schema_version_id, compression)`: the header, then the
      payload, written in turn to a fresh stream. */
  method Encode(data: Bytes, id: Uuid, compression: bool, z: Zlib) returns (value: Bytes)
    ensures value == Envelope(data, id, compression, z)
  {
    var b := new ByteStream([]);
    var payload := data;
    var flag: uint8;
    if compression {
      flag := COMPRESSION_ENABLED_BYTE;
      payload := z.compress(data);
    } else {
      flag := COMPRESSION_DISABLED_BYTE;
    }
    b.Write([VERSION_BYTE]);
    b.Write([flag]);
    b.Write(id);
    b.Write(payload);
    value := b.buffer;
  }

  /** `decode(bytes_)`: reads the magic byte, the flag, the version id and
      the rest in turn from a stream over the input. */
  method Decode(input: Bytes, z: Zlib) returns (r: Result<(Bytes, Uuid), DecodeError>)
    ensures r == Decoded(input, z)
  {
    var b := new ByteStream(input);
    var version := b.Read(1);
    if version != [VERSION_BYTE] {
      return Err(UnknownEncoding(version));
    }
    var compression := b.Read(1);
    assert |input| >= 2 ==> compression == [input[1]];
    var idBytes := b.Read(SCHEMA_VERSION_ID_SIZE);
    if |idBytes| != SCHEMA_VERSION_ID_SIZE {
      return Err(BadUuidLength(|idBytes|));
    }
    var id: Uuid := idBytes;
    var data := b.ReadAll();
    if compression == [COMPRESSION_ENABLED_BYTE] {
      var inflated := z.decompress(data);
      if inflated.None? {
        return Err(DecompressionFailed);
      }
      data := inflated.value;
    } else if compression != [COMPRESSION_DISABLED_BYTE] {
      return Err(UnknownCompression(compression));
    }
    r := Ok((data, id));
  }

  /** How `decode` ends, by input: an unknown encoding exactly when the
      magic byte is missing, a short version id exactly behind a magic byte
      with fewer than 18 bytes, an unknown flag or a failed inflate only
      behind a whole header, and on success a known flag and bytes 2-17 as
      the id. */
  lemma DecodedOutcomes(input: Bytes, z: Zlib)
    ensures var r := Decoded(input, z);
      && ((r.Err? && r.error.UnknownEncoding?) <==> (|input| == 0 || input[0] != 0x03))
      && ((r.Err? && r.error.BadUuidLength?) <==> (0 < |input| < HEADER_SIZE && input[0] == 0x03))
      && ((r.Err? && r.error.UnknownCompression?) ==>
            |input| >= HEADER_SIZE && input[1] != 0x00 && input[1] != 0x05)
      && ((r.Err? && r.error.DecompressionFailed?) ==> |input| >= HEADER_SIZE && input[1] == 0x05)
      && (r.Ok? ==>
            && |input| >= HEADER_SIZE && input[0] == 0x03 && (input[1] == 0x00 || input[1] == 0x05)
            && r.value.1 == input[2..HEADER_SIZE])
  {
  }

  /** Decoding what was encoded gives back the payload and the version id,
      uncompressed always and compressed when zlib is lossless. */
  lemma {:induction false} DecodeEncode(data: Bytes, id: Uuid, compression: bool, z: Zlib)
    requires compression ==> Lossless(z)
    ensures Decoded(Envelope(data, id, compression, z), z) == Ok((data, id))
  {
    var payload := if compression then z.compress(data) else data;
    var e := Envelope(data, id, compression, z);
    assert e[2..HEADER_SIZE] == id;
    assert e[HEADER_SIZE..] == payload;
  }

  /** A leading byte other than 0x03, or no byte at all, is an unknown
      encoding whatever follows. */
  lemma UnknownLeadingByte(input: Bytes, z: Zlib)
    requires |input| == 0 || input[0] != 0x03
    ensures Decoded(input, z).Err? && Decoded(input, z).error.UnknownEncoding?
  {
  }

  /** With the magic byte and a whole version id, any flag other than 0x00
      and 0x05 is a `CodecException` that is not an unknown encoding. */
  lemma UnknownCompressionFlag(input: Bytes, z: Zlib)
    requires |input| >= HEADER_SIZE && input[0] == 0x03
    requires input[1] != 0x00 && input[1] != 0x05
    ensures Decoded(input, z) == Err(UnknownCompression([input[1]]))
    ensures IsInstance(Decoded(input, z).error, CodecException)
    ensures !IsInstance(Decoded(input, z).error, UnknownEncodingException)
  {
  }

  /** The version id is read before the flag is looked at: behind a magic
      byte, an input too short for a version id is a `ValueError`, never a
      `CodecException`, whatever its flag. */
  lemma ShortInput(input: Bytes, z: Zlib)
    requires 0 < |input| < HEADER_SIZE && input[0] == 0x03
    ensures Decoded(input, z).Err? && Decoded(input, z).error.BadUuidLength?
    ensures !IsInstance(Decoded(input, z).error, CodecException)
  {
  }

  /** Flag 0x00: the payload is exactly the bytes after the header and the
      version id exactly bytes 2-17. */
  lemma UncompressedInput(input: Bytes, z: Zlib)
    requires |input| >= HEADER_SIZE && input[0] == 0x03 && input[1] == 0x00
    ensures Decoded(input, z) == Ok((input[HEADER_SIZE..], input[2..HEADER_SIZE]))
  {
  }

  /** Flag 0x05: the payload is the bytes after the header, inflated; a
      failure to inflate surfaces as zlib's own error, not as a
      `CodecException`. */
  lemma CompressedInput(input: Bytes, z: Zlib)
    requires |input| >= HEADER_SIZE && input[0] == 0x03 && input[1] == 0x05
    ensures z.decompress(input[HEADER_SIZE..]).Some? ==>
      Decoded(input, z) == Ok((z.decompress(input[HEADER_SIZE..]).value, input[2..HEADER_SIZE]))
    ensures z.decompress(input[HEADER_SIZE..]).None? ==>
      Decoded(input, z) == Err(DecompressionFailed)
      && !IsInstance(DecompressionFailed, CodecException)
  {
  }

  /** The unit tests' inputs: `00 05 00 00` and `00 01 00 00` both raise
      `UnknownEncodingException`, so the second is a `CodecException` only
      through the subclass relation. */
  lemma LeadingZeroInputs(z: Zlib)
    ensures Decoded([0x00, 0x05, 0x00, 0x00], z) == Err(UnknownEncoding([0x00]))
    ensures Decoded([0x00, 0x01, 0x00, 0x00], z) == Err(UnknownEncoding([0x00]))
    ensures IsInstance(Decoded([0x00, 0x01, 0x00, 0x00], z).error, CodecException)
  {
    assert [0x00, 0x05, 0x00, 0x00][..1] == [0x00 as uint8];
    assert [0x00, 0x01, 0x00, 0x00][..1] == [0x00 as uint8];
  }
}
