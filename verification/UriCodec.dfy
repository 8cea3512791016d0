/**
  Percent-encoding of UTF-8: `encodeURIComponent` and `decodeURIComponent` (ECMA-262, section
  19.2.6; RFC 3629, section 3; RFC 3986, section 2.1).
 */
module UriCodec {
  import opened Text
  import opened WellFormed

  type Byte = b: int | 0 <= b < 0x100

  const PERCENT: Unit := 0x25

  /** A Unicode scalar value: any code point but a surrogate. */
  predicate IsScalar(c: int) {
    0 <= c < 0xD800 || 0xE000 <= c < 0x110000
  }

  /** UTF-16 of one scalar value. */
  function Utf16(c: int): (r: Str)
    requires IsScalar(c)
    ensures |r| == (if c < 0x10000 then 1 else 2)
  {
    if c < 0x10000 then [c as Unit]
    else [(0xD800 + (c - 0x10000) / 0x400) as Unit, (0xDC00 + (c - 0x10000) % 0x400) as Unit]
  }

  /** The scalar value a well-formed, non-empty string starts with. */
  function FirstScalar(s: Str): (c: int)
    requires s != [] && IsWellFormed(s)
    ensures IsScalar(c) && Utf16(c) <= s
  {
    if IsHigh(s[0]) then
      var c := 0x10000 + (s[0] as int - 0xD800) * 0x400 + (s[1] as int - 0xDC00);
      assert Utf16(c) == s[..2];
      c
    else
      assert Utf16(s[0] as int) == s[..1];
      s[0] as int
  }

  lemma RestIsWellFormed(s: Str)
    requires s != [] && IsWellFormed(s)
    ensures IsWellFormed(s[|Utf16(FirstScalar(s))|..])
    ensures s == Utf16(FirstScalar(s)) + s[|Utf16(FirstScalar(s))|..]
  {
  }

  /** UTF-8 of one scalar value. */
  function Utf8(c: int): (r: seq<Byte>)
    requires IsScalar(c)
    ensures 1 <= |r| <= 4
  {
    if c < 0x80 then [c]
    else if c < 0x800 then [0xC0 + c / 0x40, 0x80 + c % 0x40]
    else if c < 0x10000 then [0xE0 + c / 0x1000, 0x80 + c / 0x40 % 0x40, 0x80 + c % 0x40]
    else [0xF0 + c / 0x40000, 0x80 + c / 0x1000 % 0x40, 0x80 + c / 0x40 % 0x40, 0x80 + c % 0x40]
  }

  /** How many octets the leading octet announces: its leading one bits, and 0 where there is no such sequence. */
  function SequenceLength(b: Byte): (n: nat)
    ensures n <= 4
  {
    if b < 0x80 then 1
    else if 0xC0 <= b < 0xE0 then 2
    else if 0xE0 <= b < 0xF0 then 3
    else if 0xF0 <= b < 0xF8 then 4
    else 0
  }

  /** The payload of octets announced by the first one; None unless they are valid UTF-8. */
  function DecodeUtf8(o: seq<Byte>): (r: Option<int>)
    requires o != [] && |o| == SequenceLength(o[0])
    ensures r.Some? ==> IsScalar(r.value)
  {
    if exists i :: 1 <= i < |o| && !(0x80 <= o[i] < 0xC0) then None
    else if |o| == 1 then Some(o[0])
    else if |o| == 2 then
      var c: int := (o[0] as int - 0xC0) * 0x40 + (o[1] as int - 0x80);
      if c < 0x80 then None else Some(c)
    else if |o| == 3 then
      var c: int := (o[0] as int - 0xE0) * 0x1000 + (o[1] as int - 0x80) * 0x40 + (o[2] as int - 0x80);
      if c < 0x800 || !IsScalar(c) then None else Some(c)
    else
      var c: int :=
        (o[0] as int - 0xF0) * 0x40000 + (o[1] as int - 0x80) * 0x1000 + (o[2] as int - 0x80) * 0x40 + (o[3] as int - 0x80);
      if c < 0x10000 || !IsScalar(c) then None else Some(c)
  }

  lemma Utf8RoundTrip(c: int)
    requires IsScalar(c)
    ensures SequenceLength(Utf8(c)[0]) == |Utf8(c)|
    ensures DecodeUtf8(Utf8(c)) == Some(c)
  {
    var o := Utf8(c);
    assert forall i :: 1 <= i < |o| ==> 0x80 <= o[i] < 0xC0;
    if |o| == 3 {
      SixBitGroups(c);
    } else if |o| == 4 {
      SixBitGroups(c);
      SixBitGroups(c / 0x40);
    }
  }

  lemma DecodedThree(o: seq<Byte>, c: int)
    requires |o| == 3 == SequenceLength(o[0]) && DecodeUtf8(o) == Some(c)
    ensures Utf8(c) == o
  {
    ThreeGroups(o[0] as int - 0xE0, o[1] as int - 0x80, o[2] as int - 0x80, c);
  }

  lemma DecodedFour(o: seq<Byte>, c: int)
    requires |o| == 4 == SequenceLength(o[0]) && DecodeUtf8(o) == Some(c)
    ensures Utf8(c) == o
  {
    var low := c - (o[0] as int - 0xF0) * 0x40000;
    ThreeGroups(o[1] as int - 0x80, o[2] as int - 0x80, o[3] as int - 0x80, low);
    FourGroups(o[0] as int - 0xF0, low, c);
  }

  lemma ThreeGroups(x: nat, y: nat, z: nat, c: nat)
    requires y < 0x40 && z < 0x40 && c == x * 0x1000 + y * 0x40 + z
    ensures c / 0x1000 == x && c / 0x40 % 0x40 == y && c % 0x40 == z
  {
    var middle := x * 0x40 + y;
    assert c == middle * 0x40 + z;
    Shifted(x, y * 0x40 + z, 0x1000);
    Shifted(middle, z, 0x40);
    Shifted(x, y, 0x40);
    assert c / 0x40 == middle && middle / 0x40 == x;
  }

  lemma FourGroups(w: nat, low: nat, c: nat)
    requires low < 0x40000 && c == w * 0x40000 + low
    ensures c / 0x40000 == w && c / 0x1000 % 0x40 == low / 0x1000 && c / 0x40 % 0x40 == low / 0x40 % 0x40 && c % 0x40 == low % 0x40
  {
    Shifted(w, low, 0x40000);
    Shifted(w * 0x40, low, 0x1000);
    Shifted(w * 0x1000, low, 0x40);
    Shifted(w, low / 0x1000, 0x40);
    Shifted(w * 0x40, low / 0x40, 0x40);
    assert c / 0x1000 == w * 0x40 + low / 0x1000;
    assert c / 0x40 == w * 0x40 * 0x40 + low / 0x40;
  }

  lemma Shifted(w: nat, low: nat, unit: nat)
    requires unit >= 1
    ensures (w * unit + low) / unit == w + low / unit && (w * unit + low) % unit == low % unit
  {
    var q, r := low / unit, low % unit;
    assert w * unit + low == unit * (w + q) + r;
    var c := w * unit + low;
    assert c / unit * unit + c % unit == c;
    assert (c / unit - (w + q)) * unit == r - c % unit;
    if c / unit != w + q { OneMoreUnit(c / unit - (w + q), unit); }
  }

  lemma OneMoreUnit(k: int, unit: int)
    requires k != 0 && unit >= 0
    ensures k * unit >= unit || k * unit <= -unit
  {
  }

  /** The decoder reads exactly the encodings: no overlong form, no surrogate, nothing past the last code point. */
  lemma DecodesExactlyUtf8(o: seq<Byte>, c: int)
    requires o != [] && |o| == SequenceLength(o[0])
    ensures DecodeUtf8(o) == Some(c) <==> IsScalar(c) && Utf8(c) == o
  {
    if IsScalar(c) && Utf8(c) == o { Utf8RoundTrip(c); }
    if DecodeUtf8(o) == Some(c) {
      if |o| == 3 { DecodedThree(o, c); }
      if |o| == 4 { DecodedFour(o, c); }
    }
  }

  /** A number is put together again from its lowest two groups of six bits and the rest. */
  lemma SixBitGroups(c: nat)
    ensures c / 0x40 / 0x40 == c / 0x1000
    ensures c == c / 0x1000 * 0x1000 + c / 0x40 % 0x40 * 0x40 + c % 0x40
    ensures c / 0x40 / 0x1000 == c / 0x40000
  {
  }

  function HexDigit(n: int): (u: Unit)
    requires 0 <= n < 16
  {
    if n < 10 then (48 + n) as Unit else (55 + n) as Unit
  }

  /** Both cases are read, only upper case is written. */
  function HexValue(u: Unit): (r: Option<int>)
    ensures r.Some? ==> 0 <= r.value < 16
  {
    if 48 <= u <= 57 then Some(u as int - 48)
    else if 65 <= u <= 70 then Some(u as int - 55)
    else if 97 <= u <= 102 then Some(u as int - 87)
    else None
  }

  /** The digits read are those written and their lower-case forms, and nothing else. */
  lemma HexDigitsExactly(u: Unit, n: int)
    requires 0 <= n < 16
    ensures HexValue(u) == Some(n) <==> u == HexDigit(n) || (n >= 10 && u as int == HexDigit(n) as int + 32)
  {
  }

  function Escape(b: Byte): (r: Str)
    ensures |r| == 3
  {
    [PERCENT, HexDigit(b / 16), HexDigit(b % 16)]
  }

  function EscapeAll(o: seq<Byte>): (r: Str)
    ensures |r| == 3 * |o|
  {
    if o == [] then [] else Escape(o[0]) + EscapeAll(o[1..])
  }

  /** What `encodeURIComponent` leaves alone: letters, digits and - _ . ! ~ * ' ( ). */
  predicate IsUnescaped(u: Unit) {
    || 48 <= u <= 57 || 65 <= u <= 90 || 97 <= u <= 122
    || u == 0x2D || u == 0x5F || u == 0x2E || u == 0x21 || u == 0x7E
    || u == 0x2A || u == 0x27 || u == 0x28 || u == 0x29
  }

  /** `encodeURIComponent`; None where it throws, on a lone surrogate. */
  function Encode(s: Str): (r: Option<Str>)
    ensures r.Some? <==> IsWellFormed(s)
  {
    if s == [] then Some([])
    else if IsUnescaped(s[0]) then
      match Encode(s[1..]) { case None => None case Some(rest) => Some([s[0]] + rest) }
    else if !IsWellFormed(s) then None
    else
      var c := FirstScalar(s);
      RestIsWellFormed(s);
      match Encode(s[|Utf16(c)|..]) { case None => None case Some(rest) => Some(EscapeAll(Utf8(c)) + rest) }
  }

  /** The octet escaped at position `k`. */
  function EscapedByte(s: Str, k: nat): (r: Option<Byte>) {
    if k + 2 < |s| && s[k] == PERCENT && HexValue(s[k + 1]).Some? && HexValue(s[k + 2]).Some? then
      Some(HexValue(s[k + 1]).value * 16 + HexValue(s[k + 2]).value)
    else None
  }

  /** The next `n` escaped octets; None unless there are that many. */
  function EscapedBytes(s: Str, n: nat): (r: Option<seq<Byte>>)
    ensures r.Some? ==> |r.value| == n && |s| >= 3 * n
    ensures r.Some? && n > 0 ==> EscapedByte(s, 0) == Some(r.value[0])
  {
    if n == 0 then Some([])
    else if EscapedByte(s, 0).None? then None
    else
      match EscapedBytes(s[3..], n - 1) {
        case None => None
        case Some(rest) => Some([EscapedByte(s, 0).value] + rest)
      }
  }

  /** `decodeURIComponent`; None where it throws. A unit that is no escape passes through, surrogates included. */
  function Decode(s: Str): (r: Option<Str>) {
    if s == [] then Some([])
    else if s[0] != PERCENT then
      match Decode(s[1..]) { case None => None case Some(rest) => Some([s[0]] + rest) }
    else if EscapedByte(s, 0).None? then None
    else
      var n := SequenceLength(EscapedByte(s, 0).value);
      if n == 0 || EscapedBytes(s, n).None? then None
      else
        var c := DecodeUtf8(EscapedBytes(s, n).value);
        match (c, Decode(s[3 * n..])) {
          case (Some(value), Some(rest)) => Some(Utf16(value) + rest)
          case _ => None
        }
  }

  lemma EscapeReadsBack(b: Byte, tail: Str)
    ensures EscapedByte(Escape(b) + tail, 0) == Some(b)
  {
  }

  lemma {:induction false} EscapesReadBack(o: seq<Byte>, tail: Str)
    ensures EscapedBytes(EscapeAll(o) + tail, |o|) == Some(o)
  {
    if o != [] {
      var s := EscapeAll(o) + tail;
      var rest := EscapeAll(o[1..]) + tail;
      assert s == Escape(o[0]) + rest;
      EscapeReadsBack(o[0], rest);
      assert s[3..] == rest;
      EscapesReadBack(o[1..], tail);
      assert [o[0]] + o[1..] == o;
    }
  }

  lemma DecodeOneScalar(c: int, tail: Str)
    requires IsScalar(c)
    requires Decode(tail).Some?
    ensures Decode(EscapeAll(Utf8(c)) + tail) == Some(Utf16(c) + Decode(tail).value)
  {
    var o := Utf8(c);
    var s := EscapeAll(o) + tail;
    Utf8RoundTrip(c);
    EscapesReadBack(o, tail);
    assert s[3 * |o|..] == tail;
    assert s[0] == Escape(o[0])[0];
  }

  /** Decoding undoes encoding, for every string that can be encoded. */
  lemma {:induction false} DecodeUndoesEncode(s: Str)
    requires IsWellFormed(s)
    ensures Decode(Encode(s).value) == Some(s)
  {
    if s == [] {
    } else if IsUnescaped(s[0]) {
      DecodeUndoesEncode(s[1..]);
      var e := Encode(s).value;
      assert e[1..] == Encode(s[1..]).value;
      assert s == [s[0]] + s[1..];
    } else {
      var c := FirstScalar(s);
      RestIsWellFormed(s);
      DecodeUndoesEncode(s[|Utf16(c)|..]);
      DecodeOneScalar(c, Encode(s[|Utf16(c)|..]).value);
    }
  }

  predicate IsUriSafe(s: Str) {
    forall u :: u in s ==> IsUnescaped(u) || u == PERCENT
  }

  lemma {:induction false} EscapeAllIsUriSafe(o: seq<Byte>)
    ensures IsUriSafe(EscapeAll(o))
  {
    if o != [] { EscapeAllIsUriSafe(o[1..]); }
  }

  /** Encoding leaves only unreserved characters and `%`, and only nothing encodes to nothing. */
  lemma {:induction false} EncodeIsUriSafe(s: Str)
    requires IsWellFormed(s)
    ensures IsUriSafe(Encode(s).value)
    ensures Encode(s).value == [] <==> s == []
  {
    if s == [] {
    } else if IsUnescaped(s[0]) {
      EncodeIsUriSafe(s[1..]);
    } else {
      RestIsWellFormed(s);
      EncodeIsUriSafe(s[|Utf16(FirstScalar(s))|..]);
      EscapeAllIsUriSafe(Utf8(FirstScalar(s)));
    }
  }
}
