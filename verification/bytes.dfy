/**
  Octets, JavaScript string code units, and the integer and character
  conversions that the typed-array views of the client perform.
 */
module Bytes {

  /** One octet of a frame. */
  newtype Byte = x: int | 0 <= x < 256

  /** One UTF-16 code unit. A JavaScript string is a sequence of these:
      `length`, `charCodeAt` and `String.fromCharCode` all count and
      produce code units, not characters. */
  newtype CodeUnit = x: int | 0 <= x < 0x1_0000

  type JsString = seq<CodeUnit>

  /** The space character, as a code unit and as a byte. */
  const Space: CodeUnit := 32
  const SpaceByte: Byte := 32

  const TwoTo31: int := 0x8000_0000
  const TwoTo32: int := 0x1_0000_0000

  /** 256 to the power n. */
  function Pow256(n: nat): (p: nat)
    ensures p >= 1
  {
    if n == 0 then 1 else 256 * Pow256(n - 1)
  }

  /** The n lowest bytes of v, least significant byte first. */
  function LittleEndian(v: nat, n: nat): (b: seq<Byte>)
    ensures |b| == n
  {
    if n == 0 then [] else [(v % 256) as Byte] + LittleEndian(v / 256, n - 1)
  }

  /** The unsigned number a little-endian byte string denotes. */
  function FromLittleEndian(b: seq<Byte>): (v: nat)
    ensures v < Pow256(|b|)
  {
    if |b| == 0 then 0 else b[0] as nat + 256 * FromLittleEndian(b[1..])
  }

  /** Reading back n little-endian bytes recovers every value that fits in them. */
  lemma {:induction false} LittleEndianRoundTrip(v: nat, n: nat)
    requires v < Pow256(n)
    ensures FromLittleEndian(LittleEndian(v, n)) == v
  {
    if n > 0 {
      assert v / 256 < Pow256(n - 1);
      LittleEndianRoundTrip(v / 256, n - 1);
      assert LittleEndian(v, n)[1..] == LittleEndian(v / 256, n - 1);
    }
  }

  /** Every byte string is the little-endian encoding of the number it denotes. */
  lemma {:induction false} FromLittleEndianRoundTrip(b: seq<Byte>)
    ensures LittleEndian(FromLittleEndian(b), |b|) == b
  {
    if |b| > 0 {
      var v := FromLittleEndian(b);
      assert v % 256 == b[0] as nat;
      assert v / 256 == FromLittleEndian(b[1..]);
      FromLittleEndianRoundTrip(b[1..]);
    }
  }

  lemma Pow256Of4()
    ensures Pow256(4) == TwoTo32
  {
  }

  /** The four bytes an `Int32Array` element holds after the number v is
      stored into it: ToInt32 wraps v modulo 2^32 and the element is laid
      out little-endian (the byte order of every platform considered). */
  function Int32Bytes(v: int): (b: seq<Byte>)
    ensures |b| == 4
    ensures FromLittleEndian(b) == v % TwoTo32
  {
    Pow256Of4();
    LittleEndianRoundTrip(v % TwoTo32, 4);
    LittleEndian(v % TwoTo32, 4)
  }

  /** The number an `Int32Array` element yields when read: the two's
      complement value of its four little-endian bytes. */
  function ReadInt32(b: seq<Byte>): (v: int)
    requires |b| == 4
    ensures -TwoTo31 <= v < TwoTo31
    ensures v % TwoTo32 == FromLittleEndian(b)
  {
    Pow256Of4();
    var u := FromLittleEndian(b);
    if u < TwoTo31 then u else u - TwoTo32
  }

  /** A signed 32-bit value survives being stored and read back. */
  lemma Int32RoundTrip(v: int)
    requires -TwoTo31 <= v < TwoTo31
    ensures ReadInt32(Int32Bytes(v)) == v
  {
    var r := ReadInt32(Int32Bytes(v));
    assert r % TwoTo32 == v % TwoTo32;
  }

  /** Four bytes are what storing the number they read as writes back. */
  lemma Int32BytesOfRead(b: seq<Byte>)
    requires |b| == 4
    ensures Int32Bytes(ReadInt32(b)) == b
  {
    FromLittleEndianRoundTrip(b);
  }

  /** What a `Uint8Array` keeps of each code unit stored into it: ToUint8
      reduces the code modulo 256, one byte per code unit. */
  function StoreAsBytes(s: JsString): (b: seq<Byte>)
    ensures |b| == |s|
  {
    seq(|s|, i requires 0 <= i < |s| => (s[i] as int % 256) as Byte)
  }

  /** `String.fromCharCode` applied to bytes: one code unit per byte. */
  function BytesAsString(b: seq<Byte>): (s: JsString)
    ensures |s| == |b|
  {
    seq(|b|, i requires 0 <= i < |b| => b[i] as int as CodeUnit)
  }

  /** Every code unit is at most U+00FF, so it fits in one byte. */
  predicate IsLatin1(s: JsString) {
    forall i :: 0 <= i < |s| ==> s[i] < 256
  }

  /** A string survives the byte-per-code-unit store and `fromCharCode`
      read exactly when all its code units are Latin-1. */
  lemma Latin1RoundTrip(s: JsString)
    ensures BytesAsString(StoreAsBytes(s)) == s <==> IsLatin1(s)
  {
    var t := BytesAsString(StoreAsBytes(s));
    if !IsLatin1(s) {
      var i :| 0 <= i < |s| && s[i] >= 256;
      assert t[i] as int == s[i] as int % 256 < s[i] as int;
    } else {
      assert forall i :: 0 <= i < |s| ==> t[i] == s[i];
    }
  }

  /** Reading bytes as code units and storing them again gives the bytes back. */
  lemma BytesRoundTrip(b: seq<Byte>)
    ensures StoreAsBytes(BytesAsString(b)) == b
    ensures IsLatin1(BytesAsString(b))
  {
  }

  /** Every byte is below 128. */
  predicate IsAsciiBytes(b: seq<Byte>) {
    forall i :: 0 <= i < |b| ==> b[i] < 128
  }

  /** Every character is below U+0080. */
  predicate IsAscii(s: string) {
    forall i :: 0 <= i < |s| ==> s[i] as int < 128
  }

  /** An ASCII text as the code units of a JavaScript string. */
  function AsciiToJs(s: string): (r: JsString)
    requires IsAscii(s)
    ensures |r| == |s|
    ensures IsLatin1(r)
  {
    seq(|s|, i requires 0 <= i < |s| => s[i] as int as CodeUnit)
  }
}
