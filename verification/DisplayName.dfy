/** The X-Forge-Name encoding of internal/proxy/headers.go, against a decoder for section 2.1 of
    RFC 3986 and section 3.2 of RFC 8187. A Go string is a sequence of bytes. */
module DisplayName {
  import opened Basics
  import opened Text

  type Byte = c: char | c < '\U{0100}' witness 'a'

  type Bytes = seq<Byte>

  const PREFIX: Bytes := "UTF-8''"

  /** Section 2.3 of RFC 3986. */
  predicate Unreserved(c: char) {
    'A' <= c <= 'Z' || 'a' <= c <= 'z' || '0' <= c <= '9' || c == '-' || c == '.' || c == '_' || c == '~'
  }

  predicate IsAscii(s: string) { forall i :: 0 <= i < |s| ==> s[i] < '\U{80}' }

  function HexDigit(d: int): Byte
    requires 0 <= d < 16
  {
    if d < 10 then '0' + d as char else 'A' + (d - 10) as char
  }

  function EncodeByte(c: Byte): Bytes {
    if Unreserved(c) then [c] else ['%', HexDigit(c as int / 16), HexDigit(c as int % 16)]
  }

  function PercentEncode(s: Bytes): Bytes {
    if s == [] then [] else EncodeByte(s[0]) + PercentEncode(s[1..])
  }

  function HexValue(c: char): Option<int> {
    if '0' <= c <= '9' then Some(c as int - '0' as int)
    else if 'A' <= c <= 'F' then Some(c as int - 'A' as int + 10)
    else if 'a' <= c <= 'f' then Some(c as int - 'a' as int + 10)
    else None
  }

  function HexPair(high: char, low: char): Option<Byte> {
    if HexValue(high).Some? && HexValue(low).Some? then
      Some((HexValue(high).value * 16 + HexValue(low).value) as char)
    else None
  }

  /** What a receiver does: a triple gives its byte, an unreserved character itself, anything else is
      not an encoding. */
  function PercentDecode(s: string): Option<Bytes> {
    if s == "" then Some([])
    else if s[0] == '%' then
      if |s| < 3 || HexPair(s[1], s[2]).None? then None
      else
        match PercentDecode(s[3..])
        case None => None
        case Some(rest) => Some([HexPair(s[1], s[2]).value] + rest)
    else if !Unreserved(s[0]) then None
    else
      match PercentDecode(s[1..])
      case None => None
      case Some(rest) => Some([s[0] as Byte] + rest)
  }

  function Encode(name: Bytes): Bytes {
    if IsAscii(name) then name else PREFIX + PercentEncode(name)
  }

  /** The upstream's side: a value with the prefix is decoded, any other one is the name itself. */
  function Decode(value: Bytes): Option<Bytes> {
    if PREFIX <= value then PercentDecode(value[|PREFIX|..]) else Some(value)
  }

  lemma EncodeTail(s: Bytes, i: nat)
    requires i < |s|
    ensures PercentEncode(s[i..]) == EncodeByte(s[i]) + PercentEncode(s[i + 1..])
  {
    assert s[i..][1..] == s[i + 1..];
  }

  /** One turn of the encoder's loop. */
  method WriteEncoded(c: Byte) returns (piece: Bytes)
    ensures piece == EncodeByte(c)
  {
    if 'A' <= c <= 'Z' || 'a' <= c <= 'z' || '0' <= c <= '9' || c == '-' || c == '.' || c == '_' || c == '~' {
      piece := [c];
    } else {
      piece := ['%', HexDigit(c as int / 16), HexDigit(c as int % 16)];
    }
  }

  method PercentEncodeUTF8(s: Bytes) returns (b: Bytes)
    ensures b == PercentEncode(s)
  {
    b := [];
    assert s[0..] == s && s[|s|..] == [] && PercentEncode([]) == [];
    hide PercentEncode, EncodeByte;
    for i := 0 to |s|
      invariant PercentEncode(s) == b + PercentEncode(s[i..])
    {
      EncodeTail(s, i);
      var piece := WriteEncoded(s[i]);
      assert b + (piece + PercentEncode(s[i + 1..])) == b + piece + PercentEncode(s[i + 1..]);
      b := b + piece;
    }
  }

  method EncodeDisplayName(name: Bytes) returns (value: Bytes)
    ensures value == Encode(name)
  {
    for i := 0 to |name|
      invariant IsAscii(name[..i])
    {
      if name[i] >= '\U{80}' {
        var encoded := PercentEncodeUTF8(name);
        return PREFIX + encoded;
      }
    }
    assert name[..|name|] == name;
    value := name;
  }

  const HEX := "0123456789ABCDEF"

  /** A byte is written as itself if it is unreserved, and otherwise with two upper-case digits. */
  lemma EncodeByteIs(c: Byte)
    ensures EncodeByte(c) == if Unreserved(c) then [c] else ['%', HEX[c as int / 16], HEX[c as int % 16]]
  {
    assert forall d :: 0 <= d < 16 ==> HexDigit(d) == HEX[d];
  }

  lemma EncodedByteDecodes(c: Byte, rest: string)
    requires PercentDecode(rest).Some?
    ensures PercentDecode(EncodeByte(c) + rest) == Some([c] + PercentDecode(rest).value)
  {
    var s := EncodeByte(c) + rest;
    if Unreserved(c) {
      assert s[1..] == rest;
    } else {
      assert s[3..] == rest;
    }
  }

  /** Decoding inverts encoding on every byte string. */
  lemma {:induction false} DecodeInvertsEncode(s: Bytes)
    ensures PercentDecode(PercentEncode(s)) == Some(s)
  {
    if s != [] {
      DecodeInvertsEncode(s[1..]);
      EncodedByteDecodes(s[0], PercentEncode(s[1..]));
      assert [s[0]] + s[1..] == s;
    }
  }

  lemma {:induction false} EncodedIsAscii(s: Bytes)
    ensures IsAscii(PercentEncode(s))
  {
    if s != [] { EncodedIsAscii(s[1..]); }
  }

  /** The header value is ASCII whatever the name. */
  lemma ValueIsAscii(name: Bytes)
    ensures IsAscii(Encode(name))
  {
    EncodedIsAscii(name);
  }

  lemma {:induction false} DecodedIsNoLonger(s: string)
    ensures PercentDecode(s).Some? ==> |PercentDecode(s).value| <= |s|
  {
    if s != "" {
      if s[0] == '%' {
        if |s| >= 3 { DecodedIsNoLonger(s[3..]); }
      } else {
        DecodedIsNoLonger(s[1..]);
      }
    }
  }

  /** The upstream gets the name back exactly unless it is an ASCII name that itself begins with the
      prefix of the encoded form. */
  lemma NameComesBackIff(name: Bytes)
    ensures Decode(Encode(name)) == Some(name) <==> !(IsAscii(name) && PREFIX <= name)
  {
    if IsAscii(name) {
      if PREFIX <= name { DecodedIsNoLonger(name[|PREFIX|..]); }
    } else {
      DecodeInvertsEncode(name);
      assert (PREFIX + PercentEncode(name))[|PREFIX|..] == PercentEncode(name);
    }
  }

  /** Two different names share a value exactly when one of them is the ASCII text of the other's
      encoding. */
  lemma ClashIff(a: Bytes, b: Bytes)
    requires a != b
    ensures Encode(a) == Encode(b) <==> (!IsAscii(a) && b == Encode(a)) || (!IsAscii(b) && a == Encode(b))
  {
    ValueIsAscii(a);
    ValueIsAscii(b);
    if !IsAscii(a) && !IsAscii(b) {
      NameComesBackIff(a);
      NameComesBackIff(b);
    }
  }
}
