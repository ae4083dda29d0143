/** UTF-8 well-formedness, the check `str::from_utf8` performs on every string of the
    format. The accepted byte sequences are those of Table 3-7 of The Unicode Standard
    (well-formed UTF-8 byte sequences): no overlong forms, no surrogates, nothing above
    U+10FFFF. */
module Utf8 {
  import opened Wire

  predicate Cont(b: byte) { 0x80 <= b <= 0xBF }

  /** Length of the well-formed sequence that starts `s`, or 0 if `s` starts with none. */
  function LeadLength(s: Input): (n: nat)
    ensures n <= 4 && n <= |s|
    ensures |s| > 0 && s[0] < 0x80 ==> n == 1
  {
    if |s| == 0 then 0
    else
      var b0 := s[0];
      if b0 <= 0x7F then 1
      else if 0xC2 <= b0 <= 0xDF then
        if |s| >= 2 && Cont(s[1]) then 2 else 0
      else if b0 == 0xE0 then
        if |s| >= 3 && 0xA0 <= s[1] <= 0xBF && Cont(s[2]) then 3 else 0
      else if 0xE1 <= b0 <= 0xEC || 0xEE <= b0 <= 0xEF then
        if |s| >= 3 && Cont(s[1]) && Cont(s[2]) then 3 else 0
      else if b0 == 0xED then
        if |s| >= 3 && 0x80 <= s[1] <= 0x9F && Cont(s[2]) then 3 else 0
      else if b0 == 0xF0 then
        if |s| >= 4 && 0x90 <= s[1] <= 0xBF && Cont(s[2]) && Cont(s[3]) then 4 else 0
      else if 0xF1 <= b0 <= 0xF3 then
        if |s| >= 4 && Cont(s[1]) && Cont(s[2]) && Cont(s[3]) then 4 else 0
      else if b0 == 0xF4 then
        if |s| >= 4 && 0x80 <= s[1] <= 0x8F && Cont(s[2]) && Cont(s[3]) then 4 else 0
      else 0
  }

  /** `s` is a concatenation of well-formed sequences. */
  predicate ValidUtf8(s: Input)
    decreases |s|
  {
    |s| == 0 || (LeadLength(s) > 0 && ValidUtf8(s[LeadLength(s)..]))
  }

  /** A Unicode scalar value: a code point that is not a surrogate. */
  predicate IsScalar(c: int) { 0 <= c < 0xD800 || 0xE000 <= c <= 0x10_FFFF }

  /** The UTF-8 form of a scalar value (section 3.9 of The Unicode Standard). */
  function EncodeScalar(c: int): (bs: seq<byte>)
    requires IsScalar(c)
    ensures 1 <= |bs| <= 4
  {
    if c < 0x80 then [c]
    else if c < 0x800 then [0xC0 + c / 0x40, 0x80 + c % 0x40]
    else if c < 0x1_0000 then [0xE0 + c / 0x1000, 0x80 + (c / 0x40) % 0x40, 0x80 + c % 0x40]
    else [0xF0 + c / 0x4_0000, 0x80 + (c / 0x1000) % 0x40, 0x80 + (c / 0x40) % 0x40, 0x80 + c % 0x40]
  }

  /** The validator accepts the UTF-8 form of every scalar value, whatever follows it. */
  lemma ScalarAccepted(c: int, t: Input)
    requires IsScalar(c)
    ensures LeadLength(EncodeScalar(c) + t) == |EncodeScalar(c)|
  {
    if c < 0x80 {
    } else if c < 0x800 {
      TwoAccepted(c, t);
    } else if c < 0x1_0000 {
      ThreeAccepted(c, t);
    } else {
      FourAccepted(c, t);
    }
  }

  lemma TwoAccepted(c: int, t: Input)
    requires 0x80 <= c < 0x800
    ensures LeadLength(EncodeScalar(c) + t) == 2
  {
    var s := EncodeScalar(c) + t;
    assert s[0] == 0xC0 + c / 0x40 && s[1] == 0x80 + c % 0x40;
    assert 2 <= c / 0x40 <= 0x1F;
  }

  lemma ThreeAccepted(c: int, t: Input)
    requires IsScalar(c) && 0x800 <= c < 0x1_0000
    ensures LeadLength(EncodeScalar(c) + t) == 3
  {
    var s := EncodeScalar(c) + t;
    var q := c / 0x40;
    assert s[0] == 0xE0 + c / 0x1000 && s[1] == 0x80 + q % 0x40 && s[2] == 0x80 + c % 0x40;
    assert c / 0x1000 == q / 0x40;
    if c < 0x1000 {
      assert 0x20 <= q < 0x40;
    } else if 0xD000 <= c < 0xE000 {
      assert 0x340 <= q < 0x360;
    }
  }

  lemma FourAccepted(c: int, t: Input)
    requires IsScalar(c) && 0x1_0000 <= c
    ensures LeadLength(EncodeScalar(c) + t) == 4
  {
    var s := EncodeScalar(c) + t;
    var q := c / 0x1000;
    assert s[0] == 0xF0 + c / 0x4_0000 && s[1] == 0x80 + q % 0x40;
    assert s[2] == 0x80 + (c / 0x40) % 0x40 && s[3] == 0x80 + c % 0x40;
    assert c / 0x4_0000 == q / 0x40;
    if c < 0x4_0000 {
      assert 0x10 <= q < 0x40;
    } else if 0x10_0000 <= c {
      assert 0x100 <= q < 0x110;
    }
  }

  /** The UTF-8 form of a string of scalar values. */
  function EncodeScalars(cs: seq<int>): seq<byte>
    requires forall i :: 0 <= i < |cs| ==> IsScalar(cs[i])
  {
    if |cs| == 0 then [] else EncodeScalar(cs[0]) + EncodeScalars(cs[1..])
  }

  /** Every string of scalar values encodes to bytes that `from_utf8` accepts. */
  lemma {:induction false} EncodedScalarsValid(cs: seq<int>)
    requires forall i :: 0 <= i < |cs| ==> IsScalar(cs[i])
    ensures ValidUtf8(EncodeScalars(cs))
  {
    if |cs| > 0 {
      var e := EncodeScalar(cs[0]);
      var r := EncodeScalars(cs[1..]);
      ScalarAccepted(cs[0], r);
      EncodedScalarsValid(cs[1..]);
      assert (e + r)[|e|..] == r;
    }
  }

  /** The scalar value a well-formed leading sequence encodes. */
  function DecodeLead(s: Input): (c: int)
    requires LeadLength(s) > 0
    ensures IsScalar(c)
    ensures EncodeScalar(c) == s[..LeadLength(s)]
  {
    var n := LeadLength(s);
    LeadBytes(s);
    if n == 1 then
      s[0]
    else if n == 2 then
      Decode2(s[0], s[1]);
      (s[0] as int - 0xC0) * 0x40 + (s[1] as int - 0x80)
    else if n == 3 then
      Decode3(s[0], s[1], s[2]);
      (s[0] as int - 0xE0) * 0x1000 + (s[1] as int - 0x80) * 0x40 + (s[2] as int - 0x80)
    else
      Decode4(s[0], s[1], s[2], s[3]);
      (s[0] as int - 0xF0) * 0x4_0000 + (s[1] as int - 0x80) * 0x1000 + (s[2] as int - 0x80) * 0x40 + (s[3] as int - 0x80)
  }

  /** What each length of `LeadLength` says of the leading bytes. */
  lemma LeadBytes(s: Input)
    requires LeadLength(s) > 0
    ensures LeadLength(s) == 1 ==> s[..1] == [s[0]] && s[0] < 0x80
    ensures LeadLength(s) == 2 ==> s[..2] == [s[0], s[1]] && 0xC2 <= s[0] <= 0xDF && Cont(s[1])
    ensures LeadLength(s) == 3 ==>
      && s[..3] == [s[0], s[1], s[2]] && Cont(s[2])
      && ((s[0] == 0xE0 && 0xA0 <= s[1] <= 0xBF) || ((0xE1 <= s[0] <= 0xEC || 0xEE <= s[0] <= 0xEF) && Cont(s[1]))
          || (s[0] == 0xED && 0x80 <= s[1] <= 0x9F))
    ensures LeadLength(s) == 4 ==>
      && s[..4] == [s[0], s[1], s[2], s[3]] && Cont(s[2]) && Cont(s[3])
      && ((s[0] == 0xF0 && 0x90 <= s[1] <= 0xBF) || (0xF1 <= s[0] <= 0xF3 && Cont(s[1]))
          || (s[0] == 0xF4 && 0x80 <= s[1] <= 0x8F))
  {
  }

  lemma Decode2(b0: byte, b1: byte)
    requires 0xC2 <= b0 <= 0xDF && Cont(b1)
    ensures var c := (b0 as int - 0xC0) * 0x40 + (b1 as int - 0x80);
      IsScalar(c) && EncodeScalar(c) == [b0, b1]
  {
    var c := (b0 as int - 0xC0) * 0x40 + (b1 as int - 0x80);
    assert c / 0x40 == b0 as int - 0xC0 && c % 0x40 == b1 as int - 0x80;
  }

  lemma Decode3(b0: byte, b1: byte, b2: byte)
    requires (b0 == 0xE0 && 0xA0 <= b1 <= 0xBF) || ((0xE1 <= b0 <= 0xEC || 0xEE <= b0 <= 0xEF) && Cont(b1))
             || (b0 == 0xED && 0x80 <= b1 <= 0x9F)
    requires Cont(b2)
    ensures var c := (b0 as int - 0xE0) * 0x1000 + (b1 as int - 0x80) * 0x40 + (b2 as int - 0x80);
      IsScalar(c) && EncodeScalar(c) == [b0, b1, b2]
  {
    var hi := b0 as int - 0xE0;
    var lo := (b1 as int - 0x80) * 0x40 + (b2 as int - 0x80);
    var c := hi * 0x1000 + lo;
    assert 0 <= lo < 0x1000;
    assert c / 0x1000 == hi;
    assert c / 0x40 == hi * 0x40 + (b1 as int - 0x80);
    assert (c / 0x40) % 0x40 == b1 as int - 0x80;
    assert c % 0x40 == b2 as int - 0x80;
  }

  lemma Decode4(b0: byte, b1: byte, b2: byte, b3: byte)
    requires (b0 == 0xF0 && 0x90 <= b1 <= 0xBF) || (0xF1 <= b0 <= 0xF3 && Cont(b1))
             || (b0 == 0xF4 && 0x80 <= b1 <= 0x8F)
    requires Cont(b2) && Cont(b3)
    ensures var c := (b0 as int - 0xF0) * 0x4_0000 + (b1 as int - 0x80) * 0x1000 + (b2 as int - 0x80) * 0x40 + (b3 as int - 0x80);
      IsScalar(c) && EncodeScalar(c) == [b0, b1, b2, b3]
  {
    var x0, x1, x2, x3 := b0 as int - 0xF0, b1 as int - 0x80, b2 as int - 0x80, b3 as int - 0x80;
    var low := x2 * 0x40 + x3;
    var mid := x1 * 0x1000 + low;
    var c := x0 * 0x4_0000 + mid;
    DivUnique(c, 0x40, x0 * 0x1000 + x1 * 0x40 + x2, x3);
    DivUnique(c / 0x40, 0x40, x0 * 0x40 + x1, x2);
    DivUnique(c, 0x1000, x0 * 0x40 + x1, low);
    DivUnique(c / 0x1000, 0x40, x0, x1);
    DivUnique(c, 0x4_0000, x0, mid);
  }

  /** Quotient and remainder are determined by `c == q * d + r` with `0 <= r < d`. */
  lemma DivUnique(c: int, d: int, q: int, r: int)
    requires d == 0x40 || d == 0x1000 || d == 0x4_0000
    requires 0 <= r < d && c == q * d + r
    ensures c / d == q && c % d == r
  {
    if d == 0x40 {
      assert c == q * 0x40 + r;
    } else if d == 0x1000 {
      assert c == q * 0x1000 + r;
    } else {
      assert c == q * 0x4_0000 + r;
    }
  }

  /** Conversely, every byte string `from_utf8` accepts is the UTF-8 form of a string
      of scalar values, namely `cs`. */
  lemma {:induction false} ValidIsEncoded(s: Input) returns (cs: seq<int>)
    requires ValidUtf8(s)
    ensures forall i :: 0 <= i < |cs| ==> IsScalar(cs[i])
    ensures EncodeScalars(cs) == s
    decreases |s|
  {
    if |s| == 0 {
      cs := [];
    } else {
      var n := LeadLength(s);
      var c := DecodeLead(s);
      var tail := ValidIsEncoded(s[n..]);
      cs := [c] + tail;
      ConsEncoded(c, tail, s, n);
    }
  }

  /** One step of `ValidIsEncoded`: the first scalar encodes the first `n` bytes and the
      others encode the rest. */
  lemma ConsEncoded(c: int, tail: seq<int>, s: Input, n: nat)
    requires IsScalar(c) && forall i :: 0 <= i < |tail| ==> IsScalar(tail[i])
    requires n <= |s| && EncodeScalar(c) == s[..n] && EncodeScalars(tail) == s[n..]
    ensures forall i :: 0 <= i < |[c] + tail| ==> IsScalar(([c] + tail)[i])
    ensures EncodeScalars([c] + tail) == s
  {
    var cs := [c] + tail;
    assert cs[1..] == tail;
    assert s[..n] + s[n..] == s;
  }

  /** Plain ASCII (every byte below 0x80) is valid UTF-8; the record type names are. */
  lemma {:induction false} AsciiValid(s: Input)
    requires forall i :: 0 <= i < |s| ==> s[i] < 0x80
    ensures ValidUtf8(s)
    decreases |s|
  {
    if |s| > 0 {
      AsciiValid(s[1..]);
    }
  }
}
