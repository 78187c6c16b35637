/** Bytes and the 128-bit UUIDs of Python's `uuid` module, as far as the
    registry client uses them: the raw 16-byte form (`UUID.bytes`), the
    canonical text form (`str(uuid)`) and parsing from text (`UUID(text)`). */
module Uuids {
  import opened Wrappers

  newtype uint8 = x: int | 0 <= x < 256

  type Bytes = seq<uint8>

  const UUID_SIZE: nat := 16

  /** A UUID is its 16 raw bytes, most significant first; two UUIDs are
      equal exactly when their bytes are. */
  type Uuid = b: Bytes | |b| == UUID_SIZE witness seq(16, _ => 0)

  const HEX_DIGITS: string := "0123456789abcdef"

  predicate IsHexDigit(c: char) {
    ('0' <= c <= '9') || ('a' <= c <= 'f') || ('A' <= c <= 'F')
  }

  /** The digits `str(uuid)` writes. */
  predicate IsLowerHexDigit(c: char) {
    ('0' <= c <= '9') || ('a' <= c <= 'f')
  }

  function DigitValue(c: char): (v: nat)
    requires IsHexDigit(c)
    ensures v < 16
  {
    if '0' <= c <= '9' then c as nat - '0' as nat
    else if 'a' <= c <= 'f' then c as nat - 'a' as nat + 10
    else c as nat - 'A' as nat + 10
  }

  /** The two lower-case hex digits of one byte, high nibble first. */
  function ByteHex(x: uint8): (s: string)
    ensures |s| == 2 && IsLowerHexDigit(s[0]) && IsLowerHexDigit(s[1])
    ensures DigitValue(s[0]) == x as int / 16 && DigitValue(s[1]) == x as int % 16
  {
    DigitValueOfHexDigit(x as int / 16);
    DigitValueOfHexDigit(x as int % 16);
    [HEX_DIGITS[x as int / 16], HEX_DIGITS[x as int % 16]]
  }

  /** Lower-case hex text of some bytes, two digits per byte. */
  function Hex(b: Bytes): (s: string)
    ensures |s| == 2 * |b|
    ensures forall i :: 0 <= i < |s| ==> IsLowerHexDigit(s[i])
  {
    if b == [] then "" else ByteHex(b[0]) + Hex(b[1..])
  }

  /** `str(uuid)`: the 32 lower-case hex digits of the UUID, split 8-4-4-4-12
      by hyphens. */
  function FormatUuid(u: Uuid): (s: string)
    ensures |s| == 36
    ensures s[8] == '-' && s[13] == '-' && s[18] == '-' && s[23] == '-'
    ensures forall i :: 0 <= i < 36 && i != 8 && i != 13 && i != 18 && i != 23 ==> IsLowerHexDigit(s[i])
  {
    var h := Hex(u);
    h[..8] + "-" + h[8..12] + "-" + h[12..16] + "-" + h[16..20] + "-" + h[20..]
  }

  /** The text with every hyphen removed. */
  function WithoutHyphens(s: string): (r: string)
    ensures '-' !in r
    ensures |r| <= |s|
  {
    if s == [] then ""
    else (if s[0] == '-' then "" else [s[0]]) + WithoutHyphens(s[1..])
  }

  /** Bytes from an even-length run of hex digits, two digits per byte. */
  function FromHex(s: string): (b: Bytes)
    requires |s| % 2 == 0
    requires forall i :: 0 <= i < |s| ==> IsHexDigit(s[i])
    ensures |b| == |s| / 2
  {
    if s == [] then []
    else [(DigitValue(s[0]) * 16 + DigitValue(s[1])) as uint8] + FromHex(s[2..])
  }

  /** `UUID(text)`: hyphens are ignored, and what remains must be exactly
      32 hex digits of either case; anything else is Python's `ValueError`,
      here `None`. */
  function ParseUuid(text: string): (r: Option<Uuid>)
    ensures r.Some? <==>
      var h := WithoutHyphens(text);
      |h| == 32 && forall i :: 0 <= i < |h| ==> IsHexDigit(h[i])
  {
    var h := WithoutHyphens(text);
    if |h| == 32 && forall i :: 0 <= i < |h| ==> IsHexDigit(h[i]) then
      Some(FromHex(h))
    else
      None
  }

  lemma {:induction false} WithoutHyphensAppend(a: string, b: string)
    ensures WithoutHyphens(a + b) == WithoutHyphens(a) + WithoutHyphens(b)
  {
    if a == [] {
      assert a + b == b;
    } else {
      var head := if a[0] == '-' then "" else [a[0]];
      assert (a + b)[0] == a[0] && (a + b)[1..] == a[1..] + b;
      WithoutHyphensAppend(a[1..], b);
      assert WithoutHyphens(a + b) == head + WithoutHyphens(a[1..] + b);
      assert WithoutHyphens(a) == head + WithoutHyphens(a[1..]);
    }
  }

  lemma DigitValueOfHexDigit(n: int)
    requires 0 <= n < 16
    ensures IsLowerHexDigit(HEX_DIGITS[n]) && DigitValue(HEX_DIGITS[n]) == n
  {
  }

  /** The two hex digits of a byte read back as that byte. */
  lemma ByteOfDigits(x: uint8)
    ensures FromHex(ByteHex(x)) == [x]
  {
    assert ByteHex(x)[2..] == [];
  }

  /** Reading hex digits two at a time splits at any even boundary. */
  lemma FromHexPair(d: string, rest: string)
    requires |d| == 2 && IsHexDigit(d[0]) && IsHexDigit(d[1])
    requires |rest| % 2 == 0 && forall i :: 0 <= i < |rest| ==> IsHexDigit(rest[i])
    ensures FromHex(d + rest) == FromHex(d) + FromHex(rest)
  {
    assert (d + rest)[2..] == rest;
    assert d[2..] == [];
  }

  lemma {:induction false} FromHexOfHex(b: Bytes)
    ensures FromHex(Hex(b)) == b
  {
    if b != [] {
      var rest := Hex(b[1..]);
      FromHexPair(ByteHex(b[0]), rest);
      ByteOfDigits(b[0]);
      FromHexOfHex(b[1..]);
      assert [b[0]] + b[1..] == b;
    }
  }

  lemma {:induction false} WithoutHyphensIdentity(s: string)
    requires '-' !in s
    ensures WithoutHyphens(s) == s
  {
    if s != [] {
      assert s[0] in s;
      assert forall c :: c in s[1..] ==> c in s;
      WithoutHyphensIdentity(s[1..]);
    }
  }

  lemma WithoutHyphensJoin(a: string, b: string)
    ensures WithoutHyphens(a + "-" + b) == WithoutHyphens(a) + WithoutHyphens(b)
  {
    var dash := "-";
    assert dash[1..] == [];
    assert WithoutHyphens(dash) == [];
    WithoutHyphensAppend(a, dash);
    WithoutHyphensAppend(a + dash, b);
  }

  /** Parsing the text form of a UUID gives the UUID back, so a version id
      sent to the registry as `str(id)` and read back with `UUID(...)` is
      the same id. */
  lemma ParseFormatUuid(u: Uuid)
    ensures ParseUuid(FormatUuid(u)) == Some(u)
  {
    var h := Hex(u);
    assert '-' !in h;
    var a, b, c, d, e := h[..8], h[8..12], h[12..16], h[16..20], h[20..];
    assert h == a + b + c + d + e;
    WithoutHyphensJoin(a + "-" + b + "-" + c + "-" + d, e);
    WithoutHyphensJoin(a + "-" + b + "-" + c, d);
    WithoutHyphensJoin(a + "-" + b, c);
    WithoutHyphensJoin(a, b);
    WithoutHyphensIdentity(a);
    WithoutHyphensIdentity(b);
    WithoutHyphensIdentity(c);
    WithoutHyphensIdentity(d);
    WithoutHyphensIdentity(e);
    assert WithoutHyphens(FormatUuid(u)) == h;
    FromHexOfHex(u);
  }
}
