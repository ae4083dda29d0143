/** The primitive readers of the format (crates/rrv-core/src/parser/mod.rs and the nom
    number parsers it uses): little-endian integers, raw floats, booleans as bytes and
    `u16`-length-prefixed UTF-8 strings.

    The format has no writer in the repository. The `Enc` functions below are reference
    encoders that exist only so that each reader can be stated against an independent
    definition: reading what the encoder wrote gives the value back. */
module Primitives {
  import opened Wire
  import opened Utf8
  import opened Datatypes

  /** `le_u8`. */
  function LeU8(s: Input): (r: Parsed<u8>)
    ensures Takes(s, r, 1)
    ensures r.Ok? ==> r.value == LittleEndian(s[..1])
  {
    if |s| < 1 then Fail(Truncated) else Ok(s[0], s[1..])
  }

  /** `le_u16`. */
  function LeU16(s: Input): (r: Parsed<u16>)
    ensures Takes(s, r, 2)
    ensures r.Ok? ==> r.value == LittleEndian(s[..2])
  {
    if |s| < 2 then Fail(Truncated)
    else
      assert s[..2] == [s[0], s[1]] + [];
      LittleEndianPair(s[0], s[1], []);
      Ok(s[0] as int + 0x100 * s[1] as int, s[2..])
  }

  /** `le_u32`. */
  function LeU32(s: Input): (r: Parsed<u32>)
    ensures Takes(s, r, 4)
    ensures r.Ok? ==> r.value == LittleEndian(s[..4])
  {
    if |s| < 4 then Fail(Truncated)
    else
      assert s[..4] == [s[0], s[1]] + ([s[2], s[3]] + []);
      LittleEndianPair(s[2], s[3], []);
      LittleEndianPair(s[0], s[1], [s[2], s[3]] + []);
      Ok(s[0] as int + 0x100 * s[1] as int + 0x1_0000 * s[2] as int + 0x100_0000 * s[3] as int, s[4..])
  }

  lemma LittleEndianPair(b0: byte, b1: byte, t: seq<byte>)
    ensures LittleEndian([b0, b1] + t) == b0 as int + 0x100 * b1 as int + 0x1_0000 * LittleEndian(t)
  {
    assert ([b0, b1] + t)[1..] == [b1] + t;
    assert ([b1] + t)[1..] == t;
  }

  /** Two's-complement reading of 32 bits. */
  function ToI32(u: u32): i32 {
    if u < 0x8000_0000 then u else u - 0x1_0000_0000
  }

  function FromI32(v: i32): u32 {
    if v >= 0 then v else v + 0x1_0000_0000
  }

  /** `le_i32`: the four bytes as a `u32`, reinterpreted as two's complement. */
  function LeI32(s: Input): (r: Parsed<i32>)
    ensures Takes(s, r, 4)
    ensures r.Ok? ==> FromI32(r.value) == LittleEndian(s[..4])
  {
    var u :- LeU32(s);
    Ok(ToI32(u.value), u.rest)
  }

  /** `le_f32`, kept as its bit pattern. */
  function LeF32(s: Input): (r: Parsed<F32>)
    ensures Takes(s, r, 4)
    ensures r.Ok? ==> r.value.bits == LittleEndian(s[..4])
  {
    var u :- LeU32(s);
    Ok(F32(u.value), u.rest)
  }

  /** `le_f16`: a `u16` taken as the bits of a half-precision float. */
  function LeF16(s: Input): (r: Parsed<F16>)
    ensures Takes(s, r, 2)
    ensures r.Ok? ==> r.value.bits == LittleEndian(s[..2])
  {
    var u :- LeU16(s);
    Ok(F16(u.value), u.rest)
  }

  /** `parse_vec3`: three `f32` in the order x, y, z. */
  function ParseVec3(s: Input): (r: Parsed<Vec3>)
    ensures Takes(s, r, 12)
    ensures r.Ok? ==> && r.value.x.bits == LittleEndian(s[..4])
                      && r.value.y.bits == LittleEndian(s[4..8])
                      && r.value.z.bits == LittleEndian(s[8..12])
  {
    var x :- LeF32(s);
    var y :- LeF32(x.rest);
    var z :- LeF32(y.rest);
    assert s[4..][..4] == s[4..8] && s[8..][..4] == s[8..12];
    Ok(Vec3(x.value, y.value, z.value), z.rest)
  }

  /** `parse_replay_bool`: one byte, true for every nonzero value and not only for 1. */
  function ParseReplayBool(s: Input): (r: Parsed<bool>)
    ensures Takes(s, r, 1)
    ensures r.Ok? ==> (r.value <==> s[0] > 0)
  {
    var b :- LeU8(s);
    Ok(b.value > 0, b.rest)
  }

  /** `parse_replay_string`: a `u16` length `L`, then `L` bytes that must be UTF-8. */
  function ParseReplayString(s: Input): (r: Parsed<Input>)
    ensures Advances(s, r)
    ensures |s| < 2 ==> r == Fail(Truncated)
    ensures |s| >= 2 ==>
      var n := LittleEndian(s[..2]);
      && (|s| < 2 + n ==> r == Fail(Truncated))
      && (|s| >= 2 + n && !ValidUtf8(s[2..2 + n]) ==> r == Fail(InvalidEncoding))
      && (|s| >= 2 + n && ValidUtf8(s[2..2 + n]) ==> r == Ok(s[2..2 + n], s[2 + n..]))
  {
    var len :- LeU16(s);
    var n := len.value;
    var t := len.rest;
    if |t| < n then Fail(Truncated)
    else
      assert t[..n] == s[2..2 + n] && t[n..] == s[2 + n..];
      if !ValidUtf8(t[..n]) then Fail(InvalidEncoding)
      else Ok(t[..n], t[n..])
  }

  /** A successful string read consumes its two length bytes and the string. */
  lemma StringUsed(s: Input)
    requires ParseReplayString(s).Ok?
    ensures var r := ParseReplayString(s);
      Used(s, r) == 2 + |r.value| && ValidUtf8(r.value) && |r.value| == LittleEndian(s[..2])
  {
  }

  // ------------------------------------------------------- reference encoders

  function EncU16(v: u16): seq<byte> { LeBytes(v, 2) }
  function EncU32(v: u32): seq<byte> { LeBytes(v, 4) }
  function EncI32(v: i32): seq<byte> { LeBytes(FromI32(v), 4) }
  function EncF16(v: F16): seq<byte> { LeBytes(v.bits, 2) }
  function EncF32(v: F32): seq<byte> { LeBytes(v.bits, 4) }
  function EncBool(b: bool): seq<byte> { if b then [1] else [0] }
  function EncVec3(v: Vec3): seq<byte> { EncF32(v.x) + EncF32(v.y) + EncF32(v.z) }

  /** A string the writer can frame: at most 65535 bytes of UTF-8. */
  predicate Writable(str: Input) { |str| < 0x1_0000 && ValidUtf8(str) }

  /** The length prefix keeps the low 16 bits of the length, so only `Writable` strings
      read back. */
  function EncString(str: Input): seq<byte> {
    LeBytes(|str|, 2) + str
  }

  lemma LittleEndianPrefix(v: nat, n: nat, t: Input)
    requires v < Pow256(n)
    ensures (LeBytes(v, n) + t)[..n] == LeBytes(v, n)
    ensures (LeBytes(v, n) + t)[n..] == t
    ensures LittleEndian((LeBytes(v, n) + t)[..n]) == v
  {
    LittleEndianOfLeBytes(v, n);
    assert (LeBytes(v, n) + t)[..n] == LeBytes(v, n);
  }

  lemma I32RoundTrip(v: i32)
    ensures ToI32(FromI32(v)) == v
  {
  }

  lemma LeU16RoundTrip(v: u16, t: Input)
    ensures LeU16(EncU16(v) + t) == Ok(v, t)
  {
    LittleEndianPrefix(v, 2, t);
  }

  lemma LeU32RoundTrip(v: u32, t: Input)
    ensures LeU32(EncU32(v) + t) == Ok(v, t)
  {
    LittleEndianPrefix(v, 4, t);
  }

  lemma LeI32RoundTrip(v: i32, t: Input)
    ensures LeI32(EncI32(v) + t) == Ok(v, t)
  {
    LittleEndianPrefix(FromI32(v), 4, t);
  }

  lemma LeF16RoundTrip(v: F16, t: Input)
    ensures LeF16(EncF16(v) + t) == Ok(v, t)
  {
    LittleEndianPrefix(v.bits, 2, t);
  }

  lemma LeF32RoundTrip(v: F32, t: Input)
    ensures LeF32(EncF32(v) + t) == Ok(v, t)
  {
    LittleEndianPrefix(v.bits, 4, t);
  }

  lemma ParseReplayBoolRoundTrip(b: bool, t: Input)
    ensures ParseReplayBool(EncBool(b) + t) == Ok(b, t)
  {
  }

  lemma ParseVec3RoundTrip(v: Vec3, t: Input)
    ensures ParseVec3(EncVec3(v) + t) == Ok(v, t)
  {
    var s := EncVec3(v) + t;
    assert s == EncF32(v.x) + (EncF32(v.y) + (EncF32(v.z) + t));
    LeF32RoundTrip(v.x, EncF32(v.y) + (EncF32(v.z) + t));
    LeF32RoundTrip(v.y, EncF32(v.z) + t);
    LeF32RoundTrip(v.z, t);
  }

  /** Reading a string the writer framed gives it back and leaves what follows. */
  lemma ParseReplayStringRoundTrip(str: Input, t: Input)
    requires Writable(str)
    ensures ParseReplayString(EncString(str) + t) == Ok(str, t)
  {
    var s := EncString(str) + t;
    assert s == LeBytes(|str|, 2) + (str + t);
    LittleEndianPrefix(|str|, 2, str + t);
    assert s[2..2 + |str|] == str;
    assert s[2 + |str|..] == t;
  }
}
