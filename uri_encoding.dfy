/**
 * The ECMAScript `encodeURI` function (ECMA-262, section 19.2.6.5 "encodeURI"
 * and the abstract operation Encode): every character outside the unescaped
 * set is written as the UTF-8 octets of its code point, each as `%` followed by
 * two upper-case hexadecimal digits.
 */
module UriEncoding {
  import opened Wrappers

  /** The characters `encodeURI` leaves as they are: letters, digits, the marks
      `-_.!~*'()`, the reserved characters `;/?:@&=+$,` and `#`. */
  predicate Unescaped(c: char) {
    ('a' <= c <= 'z') || ('A' <= c <= 'Z') || ('0' <= c <= '9') || IsMark(c) || IsReserved(c) || c == '#'
  }

  predicate IsMark(c: char) {
    c == '-' || c == '_' || c == '.' || c == '!' || c == '~' || c == '*' || c == '\'' || c == '(' || c == ')'
  }

  predicate IsReserved(c: char) {
    c == ';' || c == '/' || c == '?' || c == ':' || c == '@' || c == '&' || c == '=' || c == '+' || c == '$' || c == ','
  }

  /** Characters that can appear in an encoded string. */
  predicate UriChar(c: char) {
    Unescaped(c) || c == '%'
  }

  predicate IsByte(b: nat) {
    b < 256
  }

  function HexDigit(d: nat): (c: char)
    requires d < 16
    ensures Unescaped(c) && IsHexDigit(c)
  {
    if d < 10 then (d + '0' as int) as char else (d - 10 + 'A' as int) as char
  }

  predicate IsHexDigit(c: char) {
    ('0' <= c <= '9') || ('A' <= c <= 'F') || ('a' <= c <= 'f')
  }

  function HexValue(c: char): (d: nat)
    requires IsHexDigit(c)
    ensures d < 16
  {
    if '0' <= c <= '9' then c as int - '0' as int
    else if 'A' <= c <= 'F' then c as int - 'A' as int + 10
    else c as int - 'a' as int + 10
  }

  /** The UTF-8 octets of a Unicode scalar value. */
  function Utf8(c: char): (bytes: seq<nat>)
    ensures 1 <= |bytes| <= 4
    ensures forall i :: 0 <= i < |bytes| ==> IsByte(bytes[i])
    ensures |bytes| == 1 <==> c as int < 0x80
    ensures |bytes| == 1 ==> bytes[0] == c as int
    ensures forall i :: 1 <= i < |bytes| ==> 0x80 <= bytes[i] < 0xC0
  {
    var cp := c as int;
    if cp < 0x80 then [cp]
    else if cp < 0x800 then [0xC0 + cp / 0x40, 0x80 + cp % 0x40]
    else if cp < 0x1_0000 then [0xE0 + cp / 0x1000, 0x80 + (cp / 0x40) % 0x40, 0x80 + cp % 0x40]
    else [0xF0 + cp / 0x4_0000, 0x80 + (cp / 0x1000) % 0x40, 0x80 + (cp / 0x40) % 0x40, 0x80 + cp % 0x40]
  }

  /** The UTF-8 octets of a whole string. */
  function Utf8String(s: string): seq<nat> {
    if s == [] then [] else Utf8(s[0]) + Utf8String(s[1..])
  }

  /** Each octet as `%XY`. */
  function EscapeOctets(bytes: seq<nat>): (r: string)
    requires forall i :: 0 <= i < |bytes| ==> IsByte(bytes[i])
    ensures |r| == 3 * |bytes|
    ensures forall i :: 0 <= i < |r| ==> UriChar(r[i])
    ensures forall i :: 0 <= i < |r| ==> r[i] == '%' || IsHexDigit(r[i])
  {
    if bytes == [] then []
    else
      assert IsByte(bytes[0]);
      ['%', HexDigit(bytes[0] / 16), HexDigit(bytes[0] % 16)] + EscapeOctets(bytes[1..])
  }

  function EncodeChar(c: char): (r: string)
    ensures forall i :: 0 <= i < |r| ==> UriChar(r[i])
    ensures |r| >= 1
  {
    if Unescaped(c) then [c] else EscapeOctets(Utf8(c))
  }

  /** `encodeURI(s)`: never shorter than `s`, and empty only when `s` is. */
  function EncodeUri(s: string): (r: string)
    ensures |r| >= |s|
    ensures s == [] <==> r == []
  {
    if s == [] then [] else EncodeChar(s[0]) + EncodeUri(s[1..])
  }

  /** The encoding holds only unescaped characters and `%`: no space, no control
      character, nothing outside ASCII. */
  lemma {:induction false} EncodeUriChars(s: string)
    ensures forall i :: 0 <= i < |EncodeUri(s)| ==> UriChar(EncodeUri(s)[i])
  {
    if s != [] {
      EncodeUriChars(s[1..]);
      var e, rest := EncodeChar(s[0]), EncodeUri(s[1..]);
      assert forall i :: |e| <= i < |e + rest| ==> (e + rest)[i] == rest[i - |e|];
    }
  }

  /** Encoding distributes over concatenation. */
  lemma {:induction false} EncodeUriAppend(a: string, b: string)
    ensures EncodeUri(a + b) == EncodeUri(a) + EncodeUri(b)
  {
    if a == [] {
      assert a + b == b;
    } else {
      EncodeUriCons(a, b);
      EncodeUriAppend(a[1..], b);
      ConcatAssoc(EncodeChar(a[0]), EncodeUri(a[1..]), EncodeUri(b));
    }
  }

  lemma EncodeUriCons(a: string, b: string)
    requires a != []
    ensures EncodeUri(a + b) == EncodeChar(a[0]) + EncodeUri(a[1..] + b)
  {
    var ab := a + b;
    assert ab[0] == a[0] && ab[1..] == a[1..] + b;
  }

  lemma ConcatAssoc(e: string, x: string, y: string)
    ensures e + (x + y) == (e + x) + y
  {
  }

  /** A string made only of unescaped characters is left as it is. */
  lemma {:induction false} EncodeUriIdentity(s: string)
    requires forall i :: 0 <= i < |s| ==> Unescaped(s[i])
    ensures EncodeUri(s) == s
  {
    if s != [] {
      EncodeUriIdentity(s[1..]);
    }
  }

  /** An unescaped character other than a hexadecimal digit, such as `&` or `#`,
      occurs in the encoding exactly when it occurs in the input. */
  lemma {:induction false} EncodeUriKeeps(s: string, c: char)
    requires Unescaped(c) && !IsHexDigit(c)
    ensures c in EncodeUri(s) <==> c in s
  {
    if s != [] {
      EncodeUriKeeps(s[1..], c);
      EncodeCharKeeps(s[0], c);
      var e, r := EncodeChar(s[0]), EncodeUri(s[1..]);
      assert EncodeUri(s) == e + r;
      assert c in e + r <==> c in e || c in r;
      assert c in s <==> c == s[0] || c in s[1..];
    }
  }

  lemma EncodeCharKeeps(d: char, c: char)
    requires Unescaped(c) && !IsHexDigit(c)
    ensures c in EncodeChar(d) <==> c == d
  {
    if !Unescaped(d) {
      var e := EscapeOctets(Utf8(d));
      assert forall i :: 0 <= i < |e| ==> e[i] == '%' || IsHexDigit(e[i]);
    }
  }

  /** Every space becomes `%20`, and the text around it is encoded on its own. */
  lemma EncodeUriSpace(a: string, b: string)
    ensures EncodeUri(a + " " + b) == EncodeUri(a) + "%20" + EncodeUri(b)
  {
    EncodeUriAppend(a + " ", b);
    EncodeUriAppend(a, " ");
    assert !Unescaped(' ') && Utf8(' ') == [32];
    assert EscapeOctets([32]) == ['%', HexDigit(2), HexDigit(0)] + EscapeOctets([]);
    assert EncodeChar(' ') == "%20";
    assert EncodeUri(" ") == EncodeChar(' ') + EncodeUri([]);
  }

  /** Percent-decoding to octets: `%XY` gives the octet XY, any other ASCII character its own code. */
  function PercentDecode(s: string): Option<seq<nat>> {
    if s == [] then Some([])
    else if s[0] == '%' then
      if |s| >= 3 && IsHexDigit(s[1]) && IsHexDigit(s[2]) then
        match PercentDecode(s[3..])
        case Some(rest) => Some([HexValue(s[1]) * 16 + HexValue(s[2])] + rest)
        case None => None
      else None
    else if s[0] as int < 0x80 then
      match PercentDecode(s[1..])
      case Some(rest) => Some([s[0] as int] + rest)
      case None => None
    else None
  }

  lemma HexRoundTrip(b: nat)
    requires IsByte(b)
    ensures IsHexDigit(HexDigit(b / 16)) && IsHexDigit(HexDigit(b % 16))
    ensures HexValue(HexDigit(b / 16)) * 16 + HexValue(HexDigit(b % 16)) == b
  {
  }

  lemma PercentDecodeTriple(hi: char, lo: char, tail: string)
    requires IsHexDigit(hi) && IsHexDigit(lo) && PercentDecode(tail).Some?
    ensures PercentDecode(['%', hi, lo] + tail) == Some([HexValue(hi) * 16 + HexValue(lo)] + PercentDecode(tail).value)
  {
    var e := ['%', hi, lo] + tail;
    assert e[0] == '%' && e[1] == hi && e[2] == lo && e[3..] == tail;
  }

  lemma {:induction false} PercentDecodeEscaped(bytes: seq<nat>, rest: string)
    requires forall i :: 0 <= i < |bytes| ==> IsByte(bytes[i])
    requires PercentDecode(rest).Some?
    ensures PercentDecode(EscapeOctets(bytes) + rest) == Some(bytes + PercentDecode(rest).value)
  {
    if bytes != [] {
      var hi, lo := HexDigit(bytes[0] / 16), HexDigit(bytes[0] % 16);
      var tail := EscapeOctets(bytes[1..]) + rest;
      var decoded := PercentDecode(rest).value;
      assert EscapeOctets(bytes) + rest == ['%', hi, lo] + tail;
      HexRoundTrip(bytes[0]);
      PercentDecodeEscaped(bytes[1..], rest);
      PercentDecodeTriple(hi, lo, tail);
      assert HexValue(hi) * 16 + HexValue(lo) == bytes[0];
      ConsAppend(bytes, decoded);
      calc {
        PercentDecode(EscapeOctets(bytes) + rest);
        PercentDecode(['%', hi, lo] + tail);
        Some([bytes[0]] + (bytes[1..] + decoded));
        Some(bytes + decoded);
      }
    } else {
      assert EscapeOctets(bytes) + rest == rest;
      assert bytes + PercentDecode(rest).value == PercentDecode(rest).value;
    }
  }

  lemma ConsAppend(s: seq<nat>, d: seq<nat>)
    requires s != []
    ensures [s[0]] + (s[1..] + d) == s + d
  {
    assert s == [s[0]] + s[1..];
  }

  /** Decoding an encoded string gives back the UTF-8 octets of the original. */
  lemma {:induction false} PercentDecodeEncodeUri(s: string)
    ensures PercentDecode(EncodeUri(s)) == Some(Utf8String(s))
  {
    if s != [] {
      PercentDecodeEncodeUri(s[1..]);
      var rest := EncodeUri(s[1..]);
      if Unescaped(s[0]) {
        assert (EncodeChar(s[0]) + rest)[1..] == rest;
      } else {
        PercentDecodeEscaped(Utf8(s[0]), rest);
      }
    }
  }
}
